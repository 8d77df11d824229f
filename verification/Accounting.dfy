/** The books balance: over whole trading runs cash and positions are what the orders'
    own fills say, and moving an order neither makes sets nor loses them. */
module Accounting {
  import opened Payoff
  import opened Contracts
  import opened Sums
  import opened Risk
  import opened Ledger
  import opened Account
  import opened Reserves

  /** What an order's fills cost, by its own average price, and its fees. */
  ghost function Spent(): Order -> real {
    (o: Order) => Cost(o.filledAvg, o.filledQty) + o.fees
  }

  /** What an order's fills brought of a contract. */
  ghost function Brought(c: Contract): Order -> real {
    (o: Order) => Times(o.filledQty as real, SetWeight(o.legs, One(Option(c))))
  }

  function QtyOf(m: map<Symbol, Position>, c: Contract): int {
    if Option(c) in m then m[Option(c)].qty else 0
  }

  ghost predicate OptionsOnly(m: map<Symbol, Position>) {
    forall s :: s in m ==> s.Option?
  }

  /** Cash and positions, accounted for by the orders. */
  ghost predicate Balanced(s: State) {
    && s.cash == s.start - MapSum(s.orders, Spent())
    && OptionsOnly(s.positions)
    && forall c: Contract :: MapSum(s.positions, Quantity(Option(c))) == MapSum(s.orders, Brought(c))
  }

  // ---------- one fill ----------

  /** The average price is weighted: times the sets it is exactly what was paid. */
  lemma AverageIsWeighted(avg: real, n: int, price: real, sets: int)
    requires n >= 0 && sets >= 1
    ensures Cost(Weighted(avg, n, price, sets), n + sets) == Cost(avg, n) + Cost(price, sets)
  {
    var total := avg * n as real + price * sets as real;
    Quotient(total, (n + sets) as real);
    CostIs(avg, n);
    CostIs(price, sets);
    CostIs(total / (n + sets) as real, n + sets);
  }

  lemma CostIs(price: real, n: int)
    ensures Cost(price, n) == (price * n as real) * 100.0
  {
  }

  lemma Quotient(x: real, y: real)
    requires y > 0.0
    ensures (x / y) * y == x
  {
  }

  lemma FillSpends(o: Order, sets: int, price: real, now: Time)
    requires o.filledQty >= 0 && sets >= 1
    ensures Spent()(FilledBy(o, sets, price, now)) == Spent()(o) + Owed(o.legs, price, sets)
  {
    hide Cost, Fees, Weighted;
    AverageIsWeighted(o.filledAvg, o.filledQty, price, sets);
  }

  lemma FillBrings(o: Order, sets: int, price: real, now: Time, c: Contract)
    requires o.filledQty >= 0 && sets >= 1
    ensures Brought(c)(FilledBy(o, sets, price, now))
         == Brought(c)(o) + Times(sets as real, SetWeight(o.legs, One(Option(c))))
  {
    hide Times;
    SplitTimes(o.filledQty, sets, SetWeight(o.legs, One(Option(c))));
  }

  lemma {:induction false} AppliedHoldsOptionsOnly(m: map<Symbol, Position>, legs: seq<SetLeg>, sets: int, marks: map<Symbol, real>)
    requires OptionsOnly(m)
    ensures OptionsOnly(Applied(m, legs, sets, marks))
  {
    hide Average;
    if legs == [] {
    } else {
      AppliedHoldsOptionsOnly(m, legs[..|legs| - 1], sets, marks);
    }
  }

  lemma BookedBalances(s: State, id: string, sets: int, price: real, marks: map<Symbol, real>, now: Time)
    requires Balanced(s) && WellKept(s.positions) && Fillable(s, id, sets) && s.orders[id].filledQty >= 0
    ensures Balanced(Booked(s, id, sets, price, marks, now))
  {
    hide Applied, FilledBy, Owed, WellKept, Times, CountsBy, OptionsOnly;
    var o := s.orders[id];
    var o' := FilledBy(o, sets, price, now);
    OrderChanged(s.orders, id, o', Spent());
    FillSpends(o, sets, price, now);
    AppliedHoldsOptionsOnly(s.positions, o.legs, sets, marks);
    forall c: Contract
      ensures MapSum(Applied(s.positions, o.legs, sets, marks), Quantity(Option(c))) == MapSum(s.orders[id := o'], Brought(c))
    {
      QuantityCounts(Option(c));
      AppliedCounts(s.positions, o.legs, sets, marks, Quantity(Option(c)), One(Option(c)));
      OrderChanged(s.orders, id, o', Brought(c));
      FillBrings(o, sets, price, now, c);
    }
  }

  // ---------- whole runs ----------

  predicate FilledAsBefore(o: Order, o': Order) {
    o'.legs == o.legs && o'.filledQty == o.filledQty && o'.filledAvg == o.filledAvg && o'.fees == o.fees
  }

  lemma ChangedBalances(s: State, id: string, o: Order)
    requires Balanced(s) && id in s.orders && FilledAsBefore(s.orders[id], o)
    ensures Balanced(Changed(s, id, o))
  {
    hide Cost, Times, OptionsOnly;
    OrderChanged(s.orders, id, o, Spent());
    forall c: Contract ensures MapSum(s.orders[id := o], Brought(c)) == MapSum(s.orders, Brought(c)) {
      OrderChanged(s.orders, id, o, Brought(c));
    }
  }

  lemma EnterBalances(s: State, o: Order)
    requires Balanced(s) && o.id !in s.orders && o.filledQty == 0 && o.filledAvg == 0.0 && o.fees == 0.0
    ensures Balanced(Enter(s, o))
  {
    hide Times, OptionsOnly;
    OrderEntered(s.orders, o.id, o, Spent());
    forall c: Contract ensures MapSum(s.orders[o.id := o], Brought(c)) == MapSum(s.orders, Brought(c)) {
      OrderEntered(s.orders, o.id, o, Brought(c));
      ZeroTimes(SetWeight(o.legs, One(Option(c))));
    }
  }

  lemma ZeroTimes(x: real)
    ensures Times(0.0, x) == 0.0
  {
  }

  lemma DayExpiredBalances(s: State, now: Time)
    requires Balanced(s)
    ensures Balanced(DayExpired(s, now))
  {
    hide Cost, Times, OptionsOnly;
    MapSumAlike(s.orders, DayExpired(s, now).orders, Spent());
    forall c: Contract ensures MapSum(DayExpired(s, now).orders, Brought(c)) == MapSum(s.orders, Brought(c)) {
      MapSumAlike(s.orders, DayExpired(s, now).orders, Brought(c));
    }
  }

  lemma RefusedBalances(s: State, id: string, sets: int, price: real, now: Time)
    requires Balanced(s) && Fillable(s, id, sets)
    ensures Balanced(Refused(s, id, sets, price, now))
  {
    hide OptionsOnly;
    ChangedBalances(s, id, s.orders[id].(why := NotEnough));
  }

  lemma ExchangedBalances(s: State, id: string, limit: real, clientId: string, qty: int, next: string, now: Time)
    requires Balanced(s) && id in s.orders && Unused(s, next)
    ensures Balanced(Exchanged(s, id, limit, clientId, qty, next, now))
  {
    hide Balanced;
    ChangedBalances(s, id, MovedOn(s.orders[id], next, now));
    EnterBalances(Changed(s, id, MovedOn(s.orders[id], next, now)),
                  NextOrder(s.orders[id], limit, clientId, qty, next, s.number + 1, now));
  }

  lemma StepBalances(s: State, op: Op)
    requires Balanced(s) && Kept(s) && Trades(op)
    ensures Balanced(Step(s, op)) && Step(s, op).start == s.start
  {
    hide Balanced, Reserved, Covered, Enumerates, InSequence;
    match op
    case Submit(t, id) => if Unused(s, id) { EnterBalances(s, OrderOf(t, id, s.number + 1)); }
    case Fill(id, sets, price, marks, now) =>
      if Fillable(s, id, sets) {
        BookedBalances(s, id, sets, price, marks, now);
        RefusedBalances(s, id, sets, price, now);
      }
    case Cancel(id, now) => if id in s.orders { ChangedBalances(s, id, Withdrawn(s.orders[id], now)); }
    case Replace(id, limit, clientId, qty, next, now) =>
      if id in s.orders && Unused(s, next) && MovedQty(s.orders[id], qty) != [] {
        ExchangedBalances(s, id, limit, clientId, MovedQty(s.orders[id], qty)[0], next, now);
      }
    case ExpireDay(now) => DayExpiredBalances(s, now);
    case Note(id, text) => if id in s.orders { ChangedBalances(s, id, s.orders[id].(why := Noted(text))); }
    case MarkStand(id) => if id in s.orders { ChangedBalances(s, id, s.orders[id].(stand := true)); }
  }

  lemma OpenedBalances(start: real)
    ensures Balanced(Opened(start))
  {
  }

  lemma {:induction false} RunBalances(start: real, ops: seq<Op>)
    requires forall i :: 0 <= i < |ops| ==> Trades(ops[i])
    ensures Balanced(Run(Opened(start), ops)) && Run(Opened(start), ops).start == start
  {
    hide Balanced, Step, Kept;
    OpenedBalances(start);
    if ops == [] {
    } else {
      RunBalances(start, ops[..|ops| - 1]);
      EveryRunIsKept(start, ops[..|ops| - 1]);
      StepBalances(Run(Opened(start), ops[..|ops| - 1]), ops[|ops| - 1]);
    }
  }

  lemma {:induction false} OthersCountNothing(m: map<Symbol, Position>, s: Symbol)
    requires WellKept(m) && s !in m
    ensures MapSum(m, Quantity(s)) == 0.0
    decreases |m|
  {
    if m == map[] {
    } else {
      var k :| k in m;
      MapSumRemove(m, k, Quantity(s));
      OthersCountNothing(m - {k}, s);
    }
  }

  lemma QuantityIs(m: map<Symbol, Position>, c: Contract)
    requires WellKept(m)
    ensures MapSum(m, Quantity(Option(c))) == QtyOf(m, c) as real
  {
    var s := Option(c);
    if s in m {
      MapSumRemove(m, s, Quantity(s));
      OthersCountNothing(m - {s}, s);
    } else {
      OthersCountNothing(m, s);
    }
  }

  /** The ledger identity: after any trading run from an opened account, cash is what it
      began with less what every order's average price and fees say was spent, and the
      position in each contract is the sum of the orders' filled sets, leg by leg. */
  lemma LedgerIdentity(start: real, ops: seq<Op>, c: Contract)
    requires forall i :: 0 <= i < |ops| ==> Trades(ops[i])
    ensures var s := Run(Opened(start), ops);
            && s.cash == start - MapSum(s.orders, Spent())
            && QtyOf(s.positions, c) as real == MapSum(s.orders, Brought(c))
  {
    RunBalances(start, ops);
    EveryRunIsKept(start, ops);
    QuantityIs(Run(Opened(start), ops).positions, c);
  }

  // ---------- chains of moved orders ----------

  /** A move that leaves the total as it was. */
  predicate SameSize(s: State, op: Op) {
    op.Replace? && op.id in s.orders ==> op.qty <= 0 || op.qty == s.orders[op.id].qty
  }

  ghost predicate AllSameSize(s: State, ops: seq<Op>) {
    ops == [] || (AllSameSize(s, ops[..|ops| - 1]) && SameSize(Run(s, ops[..|ops| - 1]), ops[|ops| - 1]))
  }

  /** Whoever came of a move: the order it came of is closed for good, points to it, and
      left it exactly what was unfilled. */
  ghost predicate Linked(orders: map<string, Order>) {
    && (forall id :: id in orders && orders[id].movedFrom != "" ==> ComesOf(orders, id))
    && (forall id :: id in orders && Open(orders[id]) ==> orders[id].movedTo == "")
  }

  ghost predicate ComesOf(orders: map<string, Order>, id: string)
    requires id in orders
  {
    var from := orders[id].movedFrom;
    && from in orders && !Open(orders[from]) && orders[from].movedTo == id
    && orders[from].filledQty + orders[id].qty == orders[from].qty
  }

  predicate LinkedAsBefore(o: Order, o': Order) {
    && o'.qty == o.qty && o'.movedFrom == o.movedFrom && o'.movedTo == o.movedTo
    && (Open(o') ==> Open(o))
    && (!Open(o) ==> o'.filledQty == o.filledQty)
  }

  lemma StaysLinked(orders: map<string, Order>, orders': map<string, Order>)
    requires Linked(orders) && orders'.Keys == orders.Keys
    requires forall id :: id in orders ==> LinkedAsBefore(orders[id], orders'[id])
    ensures Linked(orders')
  {
    forall id | id in orders' && orders'[id].movedFrom != "" ensures ComesOf(orders', id) {
      assert ComesOf(orders, id);
    }
  }

  lemma ChangedStaysLinked(orders: map<string, Order>, id: string, o: Order)
    requires Linked(orders) && id in orders && LinkedAsBefore(orders[id], o)
    ensures Linked(orders[id := o])
  {
    StaysLinked(orders, orders[id := o]);
  }

  lemma FilledIsLinkedAsBefore(o: Order, sets: int, price: real, now: Time)
    requires Open(o) && o.filledQty >= 0 && sets >= 1
    ensures LinkedAsBefore(o, FilledBy(o, sets, price, now))
  {
  }

  lemma EntersUnmoved(orders: map<string, Order>, o: Order)
    requires Linked(orders) && o.id !in orders && o.movedFrom == "" && o.movedTo == ""
    ensures Linked(orders[o.id := o])
  {
    forall id | id in orders && orders[id].movedFrom != "" ensures ComesOf(orders[o.id := o], id) {
      assert ComesOf(orders, id);
    }
  }

  lemma EntersMoved(orders: map<string, Order>, o: Order, o': Order, next: Order)
    requires Linked(orders) && o.id in orders && o == orders[o.id] && Open(o) && next.id !in orders && next.id != ""
    requires !Open(o') && o'.movedTo == next.id && o'.movedFrom == o.movedFrom && o'.qty == o.qty && o'.filledQty == o.filledQty
    requires next.movedFrom == o.id && next.movedTo == "" && o.filledQty + next.qty == o.qty
    ensures Linked(orders[o.id := o'][next.id := next])
  {
    var orders' := orders[o.id := o'][next.id := next];
    forall id | id in orders' && orders'[id].movedFrom != "" ensures ComesOf(orders', id) {
      if id != next.id {
        assert ComesOf(orders, id);
      }
    }
  }

  lemma ExchangeStaysLinked(s: State, id: string, limit: real, clientId: string, left: int, next: string, now: Time)
    requires Kept(s) && Linked(s.orders) && id in s.orders && Open(s.orders[id]) && Unused(s, next)
    requires left == Remaining(s.orders[id])
    ensures Linked(Exchanged(s, id, limit, clientId, left, next, now).orders)
  {
    hide Linked, Enumerates, InSequence, WellKept;
    EntersMoved(s.orders, s.orders[id], MovedOn(s.orders[id], next, now),
                NextOrder(s.orders[id], limit, clientId, left, next, s.number + 1, now));
  }

  lemma ExpiryStaysLinked(s: State, now: Time)
    requires Linked(s.orders)
    ensures Linked(DayExpired(s, now).orders)
  {
    hide Linked, Over;
    StaysLinked(s.orders, DayExpired(s, now).orders);
  }

  lemma StepStaysLinked(s: State, op: Op)
    requires Kept(s) && Linked(s.orders) && SameSize(s, op)
    ensures Linked(Step(s, op).orders)
  {
    hide Linked, Reserved, Covered, Enumerates, InSequence, WellKept, Applied, Settled, Exchanged, FilledBy, DayExpired, TurnOf;
    match op
    case Submit(ticket, id) => if Unused(s, id) { EntersUnmoved(s.orders, OrderOf(ticket, id, s.number + 1)); }
    case Replace(id, limit, clientId, qty, next, now) =>
      if id in s.orders && Open(s.orders[id]) && Unused(s, next) && MovedQty(s.orders[id], qty) != [] {
        ExchangeStaysLinked(s, id, limit, clientId, MovedQty(s.orders[id], qty)[0], next, now);
      }
    case Fill(id, sets, price, marks, now) =>
      if Fillable(s, id, sets) {
        FilledIsLinkedAsBefore(s.orders[id], sets, price, now);
        ChangedStaysLinked(s.orders, id, FilledBy(s.orders[id], sets, price, now));
        ChangedStaysLinked(s.orders, id, s.orders[id].(why := NotEnough));
      }
    case Cancel(id, now) => if id in s.orders { ChangedStaysLinked(s.orders, id, Withdrawn(s.orders[id], now)); }
    case ExpireDay(now) => ExpiryStaysLinked(s, now);
    case Note(id, text) => if id in s.orders { ChangedStaysLinked(s.orders, id, s.orders[id].(why := Noted(text))); }
    case MarkStand(id) => if id in s.orders { ChangedStaysLinked(s.orders, id, s.orders[id].(stand := true)); }
    case SetMarks(marks) =>
    case Settle(symbol, under, now) => SettledOrders(s, symbol, under, now);
  }

  lemma {:induction false} RunStaysLinked(start: real, ops: seq<Op>)
    requires AllSameSize(Opened(start), ops)
    ensures Linked(Run(Opened(start), ops).orders)
  {
    hide Step, Kept, SameSize;
    if ops == [] {
    } else {
      RunStaysLinked(start, ops[..|ops| - 1]);
      EveryRunIsKept(start, ops[..|ops| - 1]);
      StepStaysLinked(Run(Opened(start), ops[..|ops| - 1]), ops[|ops| - 1]);
    }
  }

  /** Orders each of which came of the one before. */
  predicate IsChain(orders: map<string, Order>, chain: seq<string>) {
    && chain != []
    && (forall i :: 0 <= i < |chain| ==> chain[i] in orders && chain[i] != "")
    && (forall i :: 0 < i < |chain| ==> orders[chain[i]].movedFrom == chain[i - 1])
  }

  function FilledAlong(orders: map<string, Order>, chain: seq<string>): int
    requires forall i :: 0 <= i < |chain| ==> chain[i] in orders
  {
    if chain == [] then 0
    else FilledAlong(orders, chain[..|chain| - 1]) + orders[chain[|chain| - 1]].filledQty
  }

  lemma LinkOf(orders: map<string, Order>, chain: seq<string>, i: nat)
    requires Linked(orders) && IsChain(orders, chain) && 0 < i < |chain|
    ensures !Open(orders[chain[i - 1]])
    ensures orders[chain[i - 1]].filledQty + orders[chain[i]].qty == orders[chain[i - 1]].qty
  {
    assert orders[chain[i]].movedFrom == chain[i - 1] && chain[i - 1] != "";
    assert ComesOf(orders, chain[i]);
  }

  lemma {:induction false} ChainConserves(orders: map<string, Order>, chain: seq<string>)
    requires Linked(orders) && IsChain(orders, chain)
    ensures FilledAlong(orders, chain) + Remaining(orders[chain[|chain| - 1]]) == orders[chain[0]].qty
  {
    var init, last := chain[..|chain| - 1], chain[|chain| - 1];
    if init == [] {
      assert FilledAlong(orders, init) == 0;
    } else {
      LinkOf(orders, chain, |chain| - 1);
      ChainConserves(orders, init);
    }
  }

  /** Moving an order any number of times neither makes sets nor loses them: along a
      chain of same-size moves, what was filled and what remains of the last is always
      what the first asked for; and every order of it but the last is closed. */
  lemma SetsAreConserved(start: real, ops: seq<Op>, chain: seq<string>)
    requires AllSameSize(Opened(start), ops) && IsChain(Run(Opened(start), ops).orders, chain)
    ensures var orders := Run(Opened(start), ops).orders;
            && FilledAlong(orders, chain) + Remaining(orders[chain[|chain| - 1]]) == orders[chain[0]].qty
            && forall i :: 0 <= i < |chain| - 1 ==> !Open(orders[chain[i]])
  {
    RunStaysLinked(start, ops);
    hide Run, AllSameSize, Linked, IsChain, FilledAlong;
    var orders := Run(Opened(start), ops).orders;
    ChainConserves(orders, chain);
    forall i | 0 <= i < |chain| - 1 ensures chain[i] in orders && !Open(orders[chain[i]]) {
      LinkOf(orders, chain, i + 1);
    }
  }
}
