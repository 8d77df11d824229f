/** The account as the program keeps it: fields changed in place under a lock. Every method
    is proved to do what Account.dfy says of its operation, and nothing else. */
module Book {
  import opened Payoff
  import opened Contracts
  import opened Sums
  import opened Risk
  import opened Ledger
  import opened Account
  import opened Reserves

  // ---------- reserving, over a list of orders ----------

  ghost function WorthWith(m: map<Symbol, Position>, orders: map<string, Order>): Prices -> real {
    (prices: Prices) => HeldWorth(m)(prices) + MapSum(orders, StandingWeight(Payout(prices)))
  }

  ghost predicate ReservedIn(cash: real, m: map<Symbol, Position>, orders: map<string, Order>) {
    Stands(cash - MapSum(orders, Money()) - Margined(m), WorthWith(m, orders))
  }

  lemma ReservedIsReservedIn(s: State)
    ensures Reserved(s) == ReservedIn(s.cash, s.positions, s.orders)
  {
    StandsAlike(CashLeft(s) - Margined(s.positions), ReservedWorth(s), WorthWith(s.positions, s.orders));
  }

  /** The projected book is the real one with the standing sets of these orders filled. */
  ghost predicate Projects(after: map<Symbol, Position>, m: map<Symbol, Position>, taken: map<string, Order>) {
    forall f: Position -> real, w: Weight :: CountsBy(f, w) ==>
      MapSum(after, f) == MapSum(m, f) + MapSum(taken, StandingWeight(w))
  }

  lemma NothingProjected(m: map<Symbol, Position>)
    ensures Projects(m, m, map[]) && MapSum<string, Order>(map[], Money()) == 0.0
  {
    forall f: Position -> real, w: Weight | CountsBy(f, w) ensures MapSum<string, Order>(map[], StandingWeight(w)) == 0.0 {
    }
  }

  /** The projected book with one more order's standing sets, if there are any. */
  function Took(after: map<Symbol, Position>, o: Order): map<Symbol, Position> {
    if Standing(o) == 0 then after else WithLegs(after, o.legs, Standing(o))
  }

  lemma TookCounts(after: map<Symbol, Position>, o: Order, f: Position -> real, w: Weight)
    requires WellKept(after) && CountsBy(f, w)
    ensures WellKept(Took(after, o))
    ensures MapSum(Took(after, o), f) == MapSum(after, f) + StandingWeight(w)(o)
  {
    hide CountsBy, WithLegs, WellKept, Standing, Times;
    StandingWeighs(o, w);
    NoneCountsNothing(Standing(o), SetWeight(o.legs, w));
    WithLegsCounts(after, o.legs, Standing(o), f, w);
  }

  lemma ProjectsOneMore(after: map<Symbol, Position>, m: map<Symbol, Position>, taken: map<string, Order>, o: Order)
    requires WellKept(after) && Projects(after, m, taken) && o.id !in taken
    ensures WellKept(Took(after, o))
    ensures Projects(Took(after, o), m, taken[o.id := o])
    ensures MapSum(taken[o.id := o], Money()) == MapSum(taken, Money()) + Owed(o.legs, o.limit, Standing(o))
  {
    hide CountsBy, Took, WellKept, Standing, Times, Owed;
    MarginCounts();
    TookCounts(after, o, Margins(), Nothing());
    forall f: Position -> real, w: Weight | CountsBy(f, w)
      ensures MapSum(Took(after, o), f) == MapSum(m, f) + MapSum(taken[o.id := o], StandingWeight(w))
    {
      TookCounts(after, o, f, w);
      OrderEntered(taken, o.id, o, StandingWeight(w));
    }
    OrderEntered(taken, o.id, o, Money());
  }

  lemma {:induction false} NothingOwed(legs: seq<SetLeg>, price: real)
    ensures Owed(legs, price, 0) == 0.0 && ContractsIn(legs, 0) == 0
  {
    if legs == [] {
    } else {
      NothingOwed(legs[..|legs| - 1], price);
    }
  }

  lemma ProjectedCounts(after: map<Symbol, Position>, m: map<Symbol, Position>, taken: map<string, Order>,
                        f: Position -> real, w: Weight)
    requires Projects(after, m, taken) && CountsBy(f, w)
    ensures MapSum(after, f) == MapSum(m, f) + MapSum(taken, StandingWeight(w))
  {
  }

  lemma ProjectedWorth(after: map<Symbol, Position>, m: map<Symbol, Position>, taken: map<string, Order>, prices: Prices)
    requires Projects(after, m, taken)
    ensures HeldWorth(after)(prices) == WorthWith(m, taken)(prices)
  {
    hide CountsBy, Projects;
    ValueCounts(prices);
    ProjectedCounts(after, m, taken, At(prices), Payout(prices));
    assert HeldWorth(after)(prices) == MapSum(after, At(prices));
    assert HeldWorth(m)(prices) == MapSum(m, At(prices));
    assert WorthWith(m, taken)(prices) == HeldWorth(m)(prices) + MapSum(taken, StandingWeight(Payout(prices)));
  }

  /** The cash left covers the projected book exactly when the orders are reserved for. */
  lemma ProjectionTells(cash: real, after: map<Symbol, Position>, m: map<Symbol, Position>, taken: map<string, Order>)
    requires Projects(after, m, taken)
    ensures Covered(cash - MapSum(taken, Money()), after) == ReservedIn(cash, m, taken)
  {
    hide CountsBy, Projects, Stands, HeldWorth, WorthWith;
    MarginCounts();
    NoMarginStands(taken);
    ProjectedCounts(after, m, taken, Margins(), Nothing());
    forall prices: Prices ensures HeldWorth(after)(prices) == WorthWith(m, taken)(prices) {
      ProjectedWorth(after, m, taken, prices);
    }
    StandsAlike(cash - MapSum(taken, Money()) - Margined(after), HeldWorth(after), WorthWith(m, taken));
  }

  lemma {:induction false} NoMarginStands(taken: map<string, Order>)
    ensures MapSum(taken, StandingWeight(Nothing())) == 0.0
    decreases |taken|
  {
    hide Times;
    if taken == map[] {
    } else {
      var id :| id in taken;
      MapSumRemove(taken, id, StandingWeight(Nothing()));
      NoMarginStands(taken - {id});
      NothingWeighsNothing(taken[id].legs);
      TimesZero(Standing(taken[id]) as real);
      StandingWeighs(taken[id], Nothing());
    }
  }

  /** An order moved on stands for nothing: it is as if it were not there. */
  lemma MovedOnCountsNothing(cash: real, m: map<Symbol, Position>, orders: map<string, Order>, id: string, o: Order, next: Order)
    requires id in orders && o.id == id && !Open(o) && next.id !in orders
    ensures ReservedIn(cash, m, orders[id := o][next.id := next]) == ReservedIn(cash, m, (orders - {id})[next.id := next])
  {
    hide Times, Stands;
    var left, right := orders[id := o][next.id := next], (orders - {id})[next.id := next];
    assert left == right[id := o];
    OrderEntered(right, id, o, Money());
    NothingOwed(o.legs, o.limit);
    forall prices: Prices ensures WorthWith(m, left)(prices) == WorthWith(m, right)(prices) {
      OrderEntered(right, id, o, StandingWeight(Payout(prices)));
      NoneCountsNothing(0, SetWeight(o.legs, Payout(prices)));
      StandingWeighs(o, Payout(prices));
    }
    StandsAlike(cash - MapSum(left, Money()) - Margined(m), WorthWith(m, left), WorthWith(m, right));
  }

  // ---------- the loops over legs ----------

  /** How many contracts so many sets are. */
  method CountContracts(legs: seq<SetLeg>, sets: int) returns (n: int)
    ensures n == ContractsIn(legs, sets)
  {
    n := 0;
    for i := 0 to |legs|
      invariant n == ContractsIn(legs[..i], sets)
    {
      assert legs[..i + 1][..i] == legs[..i];
      n := n + legs[i].ratio * sets;
    }
    assert legs[..|legs|] == legs;
  }

  /** The quantities of the legs added to a copy of the book. */
  method AddLegs(m: map<Symbol, Position>, legs: seq<SetLeg>, sets: int) returns (after: map<Symbol, Position>)
    ensures after == WithLegs(m, legs, sets)
  {
    after := m;
    for i := 0 to |legs|
      invariant after == WithLegs(m, legs[..i], sets)
    {
      assert legs[..i + 1][..i] == legs[..i];
      var symbol := Option(legs[i].contract);
      var qty := legs[i].ratio * sets;
      if legs[i].side.Sell? {
        qty := -qty;
      }
      var p := if symbol in after then after[symbol] else Position(symbol, 0, 0.0, UsOption, 0.0);
      after := after[symbol := p.(symbol := symbol, kind := UsOption, qty := p.qty + qty)];
    }
    assert legs[..|legs|] == legs;
  }

  /** How a fill request is answered. */
  datatype Answer = NoSuchOrder | NotOpen(status: Status) | WrongSize | Told(event: Event)

  /** How a move or a cancellation is answered. */
  datatype Moving = Missing | Closed(status: Status) | NotOneSet | LessThanFilled | Uncovered | Done(order: Order)

  class Book {
    const start: real
    var cash: real
    var positions: map<Symbol, Position>
    var orders: map<string, Order>
    var order: seq<string>
    var events: seq<Event>
    var number: nat

    ghost function View(): State
      reads this
    {
      State(cash, start, positions, orders, order, events, number)
    }

    ghost predicate Valid()
      reads this
    {
      Kept(View())
    }

    constructor (start: real)
      ensures Valid() && View() == Opened(start)
    {
      this.start, cash := start, start;
      positions, orders, order, events, number := map[], map[], [], [], 0;
    }

    /** What the book becomes if so many sets of the legs fill. */
    method Project(legs: seq<SetLeg>, sets: int) returns (ps: seq<Position>)
      requires WellKept(positions)
      ensures Lists(ps, WithLegs(positions, legs, sets))
      ensures forall i :: 0 <= i < |ps| ==> Readable(ps[i])
    {
      var after := AddLegs(positions, legs, sets);
      AppliedWellKept(positions, legs, sets);
      ps := Listed(after);
    }

    /** The book and the cash if every standing order fills at its own limit, but for one
        left out, and another with them. */
    method ReservedBook(extra: Order, skip: string) returns (ps: seq<Position>, left: real)
      requires Valid() && extra.id !in orders && Open(extra) && extra.filledQty == 0
      ensures forall i :: 0 <= i < |ps| ==> Readable(ps[i])
      ensures Suffices(left, ps) == ReservedIn(cash, positions, (orders - {skip})[extra.id := extra])
    {
      hide Projects, WellKept, WithLegs, Owed, Covered, ReservedIn, Lists, InSequence, MapSum;
      var after := positions;
      left := cash;
      ghost var taken: map<string, Order> := map[];
      NothingProjected(positions);
      for i := 0 to |order|
        invariant taken == Among(orders, order[..i]) - {skip}
        invariant WellKept(after) && Projects(after, positions, taken) && left == cash - MapSum(taken, Money())
      {
        var id := order[i];
        assert id in order;
        AmongOneMore(orders, order, i, skip);
        if id != skip {
          ProjectsOneMore(after, positions, taken, orders[id]);
          NothingOwed(orders[id].legs, orders[id].limit);
          if Open(orders[id]) {
            after, left := Reserve(after, left, orders[id], Remaining(orders[id]));
          }
          taken := taken[id := orders[id]];
        }
      }
      assert order[..|order|] == order && Among(orders, order) == orders;
      ProjectsOneMore(after, positions, taken, extra);
      after, left := Reserve(after, left, extra, extra.qty);
      ps := Listed(after);
      ListSuffices(left, ps, after);
      ProjectionTells(cash, after, positions, taken[extra.id := extra]);
    }

    method Move(symbol: Symbol, kind: Kind, signed: int, price: real)
      modifies this`positions
      ensures positions == MovedBy(old(positions), symbol, kind, signed, price)
    {
      hide Blended;
      if signed == 0 {
        return;
      }
      var p := Position(symbol, 0, 0.0, kind, 0.0);
      if symbol in positions {
        p := positions[symbol];
      }
      p := p.(mark := price);
      var was := p.qty;
      if was == 0 {
        p := p.(avgPrice := price);
      } else if (was > 0 && signed > 0) || (was < 0 && signed < 0) {
        p := p.(avgPrice := Blended(p.avgPrice, was, price, signed));
      } else if Abs(signed) > Abs(was) {
        p := p.(avgPrice := price);
      }
      p := p.(qty := p.qty + signed);
      if p.qty == 0 {
        positions := positions - {symbol};
      } else {
        positions := positions[symbol := p];
      }
    }

    /** Moves the positions and does not touch the cash. */
    method Apply(legs: seq<SetLeg>, sets: int, prices: map<Symbol, real>)
      modifies this`positions
      ensures positions == Applied(old(positions), legs, sets, prices)
    {
      for i := 0 to |legs|
        invariant positions == Applied(old(positions), legs[..i], sets, prices)
      {
        assert legs[..i + 1][..i] == legs[..i];
        hide MovedBy;
        var signed := legs[i].ratio * sets;
        if legs[i].side.Sell? {
          signed := -signed;
        }
        Move(Option(legs[i].contract), UsOption, signed, PriceOf(prices, Option(legs[i].contract)));
      }
      assert legs[..|legs|] == legs;
    }

    /** Puts an order into the book, when the book can back it with all that stand. */
    method Submit(t: Ticket, id: string) returns (accepted: bool)
      requires Valid() && Unused(View(), id)
      modifies this
      ensures Valid() && View() == Step(old(View()), Op.Submit(t, id))
      ensures accepted <==> Reserved(Placed(old(View()), t, id))
    {
      hide Reserved, Kept, ReservedIn, Step, Placed;
      var o := OrderOf(t, id, number + 1);
      var ps, left := ReservedBook(o, "");
      accepted := Meets(ps, left);
      ghost var after := SubmitIs(View(), t, id, accepted);
      if !accepted {
        return;
      }
      number := number + 1;
      orders := orders[id := o];
      order := order + [id];
      assert View() == after;
    }

    /** Books the part of an order the market has reached. */
    method Fill(id: string, sets: int, price: real, prices: map<Symbol, real>, now: Time) returns (answer: Answer)
      requires Valid()
      modifies this
      ensures Valid() && View() == Step(old(View()), Op.Fill(id, sets, price, prices, now))
      ensures answer.Told? <==> Fillable(old(View()), id, sets)
      ensures answer.Told? ==> id in old(orders)
      ensures answer.Told? ==> |events| > 0 && answer.event == events[|events| - 1]
      ensures orders.Keys == old(orders).Keys && forall k :: k in orders && k != id ==> orders[k] == old(orders)[k]
      ensures id in orders ==>
                && orders[id].legs == old(orders)[id].legs
                && orders[id].filledQty == old(orders)[id].filledQty + if answer.Told? && answer.event.filled then sets else 0
    {
      hide Kept, Applied, WithLegs, FilledBy, Covered, Step, ContractsIn;
      NothingToFill(View(), id, sets, price, prices, now);
      if id !in orders {
        return NoSuchOrder;
      }
      var o := orders[id];
      if !Open(o) {
        return NotOpen(o.status);
      }
      if sets < 1 || sets > Remaining(o) {
        return WrongSize;
      }
      FilledIsSane(View(), id);
      var projected := Project(o.legs, sets);
      var contracts := CountContracts(o.legs, sets);
      var fees := contracts as real * PER_CONTRACT;
      var cashAfter := cash - price * sets as real * 100.0 - fees;
      var enough := Meets(projected, cashAfter);
      ghost var after := FillIs(View(), id, sets, price, prices, now, projected, cashAfter, enough);
      if !enough {
        orders := orders[id := o.(why := NotEnough)];
        events := events + [Event(id, EventKind.Fill, [], now, sets, price, 0.0, false, NotEnough)];
        assert View() == after;
        return Told(events[|events| - 1]);
      }
      Apply(o.legs, sets, prices);
      cash := cashAfter;
      orders := orders[id := FilledBy(o, sets, price, now)];
      events := events + [Event(id, EventKind.Fill, [], now, sets, price, fees, true, Quiet)];
      assert View() == after;
      answer := Told(events[|events| - 1]);
    }

    method Cancel(id: string, now: Time) returns (answer: Moving)
      requires Valid()
      modifies this
      ensures Valid() && View() == Step(old(View()), Op.Cancel(id, now))
      ensures answer.Done? <==> id in old(orders) && Open(old(orders)[id])
    {
      StepKeeps(View(), Op.Cancel(id, now));
      hide Kept;
      if id !in orders {
        return Missing;
      }
      if !Open(orders[id]) {
        return Closed(orders[id].status);
      }
      orders := orders[id := orders[id].(status := Canceled, canceledAt := now, why := ByTheParticipant)];
      answer := Done(orders[id]);
    }

    /** Moves an order's price: the old one is closed, and what was left of it, or of the
        size asked, goes into a new one under a new name. */
    method Replace(id: string, limit: real, clientId: string, qty: int, next: string, now: Time) returns (answer: Moving)
      requires Valid() && Unused(View(), next)
      modifies this
      ensures Valid() && View() == Step(old(View()), Op.Replace(id, limit, clientId, qty, next, now))
      ensures answer.Done? <==> next in orders
    {
      hide Kept, Reserved, ReservedIn, Step, Exchanged;
      NothingToMove(View(), id, limit, clientId, qty, next, now);
      if id !in orders {
        return Missing;
      }
      var o := orders[id];
      if !Open(o) {
        return Closed(o.status);
      }
      var remaining := Remaining(o);
      if qty > 0 {
        if qty < o.filledQty {
          return LessThanFilled;
        }
        remaining := qty - o.filledQty;
      }
      if remaining < 1 {
        return NotOneSet;
      }
      var moved := NextOrder(o, limit, clientId, remaining, next, number + 1, now);
      var ps, left := ReservedBook(moved, id);
      var enough := Meets(ps, left);
      ghost var after := ReplaceIs(View(), id, limit, clientId, qty, remaining, next, now, enough);
      if !enough {
        return Uncovered;
      }
      orders := orders[id := o.(status := Replaced, canceledAt := now, movedTo := next, why := Moved)];
      number := number + 1;
      orders := orders[next := moved];
      order := order + [next];
      assert View() == after;
      answer := Done(moved);
    }

    /** Puts out the day orders that outlived their session. */
    method ExpireDay(now: Time) returns (gone: seq<Order>)
      requires Valid()
      modifies this
      ensures Valid() && View() == Step(old(View()), Op.ExpireDay(now))
      ensures forall o :: o in gone ==> o.id in old(orders) && Over(old(orders)[o.id], now) && o == orders[o.id]
      ensures forall id :: id in old(orders) && Over(old(orders)[id], now) ==> orders[id] in gone
    {
      hide Kept, Over, Step, DayExpired, SweptOrders, SweptGone;
      ghost var before := View();
      ghost var after := ExpireDayIs(before, now);
      ghost var done: set<string> := {};
      gone := [];
      for i := 0 to |order|
        invariant View() == before.(orders := orders)
        invariant forall j :: 0 <= j < |order| ==> (order[j] in done <==> j < i)
        invariant SweptOrders(before, orders, now, done) && SweptGone(before, gone, now, done)
      {
        var id := order[i];
        SweepOne(before, orders, gone, now, done, id);
        if Over(orders[id], now) {
          orders := orders[id := orders[id].(status := Expired, canceledAt := now, why := SessionOver)];
          gone := gone + [orders[id]];
        }
        done := done + {id};
      }
      SweptAll(before, orders, gone, now, done);
      assert View() == after;
    }

    /** Writes why an order has not filled yet; a closed one has no such reason. */
    method Note(id: string, text: string)
      requires Valid()
      modifies this
      ensures Valid() && View() == Step(old(View()), Op.Note(id, text))
      ensures orders.Keys == old(orders).Keys && forall k :: k in orders && k != id ==> orders[k] == old(orders)[k]
      ensures id in orders ==> orders[id].legs == old(orders)[id].legs && orders[id].filledQty == old(orders)[id].filledQty
    {
      hide Kept, Step, Open;
      ghost var after := NoteIs(View(), id, text);
      if id in orders && Open(orders[id]) && orders[id].why != Noted(text) {
        orders := orders[id := orders[id].(why := Noted(text))];
      }
      assert View() == after;
    }

    method MarkStand(id: string)
      requires Valid()
      modifies this
      ensures Valid() && View() == Step(old(View()), Op.MarkStand(id))
      ensures orders.Keys == old(orders).Keys && forall k :: k in orders && k != id ==> orders[k] == old(orders)[k]
      ensures id in orders ==> orders[id].legs == old(orders)[id].legs && orders[id].filledQty == old(orders)[id].filledQty
    {
      hide Kept, Step;
      ghost var after := MarkStandIs(View(), id);
      if id in orders && !orders[id].stand {
        orders := orders[id := orders[id].(stand := true)];
      }
      assert View() == after;
    }

    /** Remembers the last prices seen. */
    method SetMarks(marks: map<Symbol, real>)
      requires Valid()
      modifies this
      ensures Valid() && View() == Step(old(View()), Op.SetMarks(marks))
    {
      hide Kept, Step, Marking, AllMarked;
      ghost var before := View();
      ghost var after := SetMarksIs(before, marks);
      var left := marks.Keys;
      while left != {}
        invariant left <= marks.Keys
        invariant View() == before.(positions := positions) && Marking(before.positions, positions, marks, left)
        decreases |left|
      {
        var s :| s in left;
        MarkOne(before.positions, positions, marks, left, s);
        left := left - {s};
        if s in positions && marks[s] > 0.0 && positions[s].mark != marks[s] {
          positions := positions[s := positions[s].(mark := marks[s])];
        }
      }
      AllAreMarked(before, positions, marks);
      assert View() == after;
    }

    /** The option positions that have expired. */
    method Due(now: Time, settledAt: nat -> Time) returns (due: seq<Symbol>)
      requires Valid()
      ensures forall s :: s in due <==>
                s in positions && s.Option? && positions[s].qty != 0 && now >= settledAt(s.contract.series.expiry)
      ensures forall i, j :: 0 <= i < j < |due| ==> due[i] != due[j]
    {
      due := [];
      var left := positions.Keys;
      while left != {}
        invariant left <= positions.Keys
        invariant forall s :: s in due <==>
                    s in positions && s !in left && s.Option? && positions[s].qty != 0 && now >= settledAt(s.contract.series.expiry)
        invariant forall i, j :: 0 <= i < j < |due| ==> due[i] != due[j]
        decreases |left|
      {
        var s :| s in left;
        left := left - {s};
        if positions[s].kind.UsEquity? || positions[s].qty == 0 || s.Ticker? || now < settledAt(s.contract.series.expiry) {
          continue;
        }
        due := due + [s];
      }
    }

    /** Books the expiry of one position against the underlying's price. */
    method Settle(symbol: Symbol, under: real, now: Time) returns (settled: bool)
      requires Valid()
      modifies this
      ensures Valid() && View() == Step(old(View()), Op.Settle(symbol, under, now))
      ensures settled <==> symbol in old(positions) && symbol.Option?
    {
      hide Kept, MovedBy, InCents, Step, Repriced, Paid, Delivered, InCash;
      ghost var after := SettleIs(View(), symbol, under, now);
      if symbol !in positions || symbol.Ticker? {
        return false;
      }
      settled := true;
      var c, qty := symbol.contract, positions[symbol].qty;
      var value := InCents(c, under);
      var e := Event("", Expiry, [symbol], now, qty, under, 0.0, false, Quiet);
      positions := positions - {symbol};
      if value < 0.01 {
        events := events + [e];
      } else if c.series.root in CASH_SETTLED {
        cash := cash + InCash(value, qty);
        events := events + [e.(kind := Settlement)];
      } else {
        var shares, money := Delivery(c, qty);
        Move(Ticker(c.series.root), UsEquity, shares, c.strike);
        MarkAt(Ticker(c.series.root), under);
        cash := cash + money;
        events := events + [e.(kind := if qty < 0 then Assignment else Exercise)];
      }
      assert View() == after;
    }

    method MarkAt(symbol: Symbol, mark: real)
      modifies this`positions
      ensures positions == Repriced(old(positions), symbol, mark)
    {
      if symbol in positions {
        positions := positions[symbol := positions[symbol].(mark := mark)];
      }
    }
  }

  /** A call brings shares and takes the strike, a put the other way round; for what was
      sold it is all the same with the sign flipped. */
  method Delivery(c: Contract, qty: int) returns (shares: int, money: real)
    ensures shares == Delivered(c, qty) && money == Paid(c, qty)
  {
    shares := qty * 100;
    money := -(c.strike * qty as real * 100.0);
    if !c.call {
      shares, money := -shares, -money;
    }
  }

  /** An open order's sets taken into the projected book, at its limit. */
  method Reserve(m: map<Symbol, Position>, cash: real, o: Order, sets: int) returns (after: map<Symbol, Position>, left: real)
    requires Standing(o) == if sets < 1 then 0 else sets
    ensures after == Took(m, o)
    ensures left == cash - Owed(o.legs, o.limit, Standing(o))
  {
    after, left := m, cash;
    if sets < 1 {
      NothingOwed(o.legs, o.limit);
      return;
    }
    after := AddLegs(m, o.legs, sets);
    var contracts := CountContracts(o.legs, sets);
    left := left - (o.limit * sets as real * 100.0 + contracts as real * PER_CONTRACT);
  }

  // ---------- small facts the methods use ----------

  /** The orders among these names. */
  ghost function Among(orders: map<string, Order>, ids: seq<string>): map<string, Order> {
    map id | id in orders && id in ids :: orders[id]
  }

  lemma AppliedWellKept(m: map<Symbol, Position>, legs: seq<SetLeg>, sets: int)
    requires WellKept(m)
    ensures WellKept(WithLegs(m, legs, sets))
  {
    MarginCounts();
    WithLegsCounts(m, legs, sets, Margins(), Nothing());
  }

  lemma AmongOneMore(orders: map<string, Order>, order: seq<string>, i: nat, skip: string)
    requires i < |order| && Enumerates(order, orders)
    ensures order[i] in orders && order[i] !in Among(orders, order[..i])
    ensures Among(orders, order[..i + 1]) - {skip}
         == if order[i] == skip then Among(orders, order[..i]) - {skip}
            else (Among(orders, order[..i]) - {skip})[order[i] := orders[order[i]]]
  {
    assert order[i] in order;
    assert order[..i + 1] == order[..i] + [order[i]];
  }

  lemma SubmitIsJudged(s: State, t: Ticket, id: string)
    requires Kept(s) && Unused(s, id)
    ensures Reserved(Placed(s, t, id)) == ReservedIn(s.cash, s.positions, (s.orders - {""})[id := OrderOf(t, id, s.number + 1)])
    ensures OrderOf(t, id, s.number + 1).id == id && OrderOf(t, id, s.number + 1).number == s.number + 1
  {
    NoNamelessOrder(s);
    ReservedIsReservedIn(Placed(s, t, id));
    hide Reserved, Kept, ReservedIn, TurnOf;
    assert s.orders - {""} == s.orders;
  }

  lemma SubmitIs(s: State, t: Ticket, id: string, enough: bool) returns (after: State)
    requires Kept(s) && Unused(s, id)
    requires enough == ReservedIn(s.cash, s.positions, (s.orders - {""})[id := OrderOf(t, id, s.number + 1)])
    ensures after == Step(s, Op.Submit(t, id)) && Kept(after)
    ensures enough == Reserved(Placed(s, t, id))
    ensures var o := OrderOf(t, id, s.number + 1);
            after == if enough then s.(orders := s.orders[id := o], order := s.order + [id], number := s.number + 1) else s
  {
    StepKeeps(s, Op.Submit(t, id));
    SubmitIsJudged(s, t, id);
    hide Reserved, Kept, ReservedIn, OrderOf;
    after := Step(s, Op.Submit(t, id));
  }

  lemma NoNamelessOrder(s: State)
    requires Kept(s)
    ensures "" !in s.orders
  {
  }

  lemma NothingToFill(s: State, id: string, sets: int, price: real, prices: map<Symbol, real>, now: Time)
    ensures !Fillable(s, id, sets) ==> Step(s, Op.Fill(id, sets, price, prices, now)) == s
  {
    hide AfterFill;
  }

  lemma NothingToMove(s: State, id: string, limit: real, clientId: string, qty: int, next: string, now: Time)
    ensures id !in s.orders || !Open(s.orders[id]) || MovedQty(s.orders[id], qty) == [] ==>
              Step(s, Op.Replace(id, limit, clientId, qty, next, now)) == s
  {
    hide Reserved, Exchanged;
  }

  lemma MoveIsJudged(s: State, id: string, limit: real, clientId: string, qty: int, next: string, now: Time)
    requires Kept(s) && Unused(s, next) && id in s.orders
    ensures var moved := NextOrder(s.orders[id], limit, clientId, qty, next, s.number + 1, now);
            && Reserved(Exchanged(s, id, limit, clientId, qty, next, now))
               == ReservedIn(s.cash, s.positions, (s.orders - {id})[next := moved])
            && moved.id == next && moved.number == s.number + 1
  {
    FilledIsSane(s, id);
    hide Reserved, Kept, ReservedIn, TurnOf;
    ReservedIsReservedIn(Exchanged(s, id, limit, clientId, qty, next, now));
    MovedOnCountsNothing(s.cash, s.positions, s.orders, id, MovedOn(s.orders[id], next, now),
                         NextOrder(s.orders[id], limit, clientId, qty, next, s.number + 1, now));
  }

  lemma ReplaceIs(s: State, id: string, limit: real, clientId: string, qty: int, remaining: int, next: string, now: Time, enough: bool)
      returns (after: State)
    requires Kept(s) && Unused(s, next) && id in s.orders && Open(s.orders[id]) && MovedQty(s.orders[id], qty) == [remaining]
    requires var moved := NextOrder(s.orders[id], limit, clientId, remaining, next, s.number + 1, now);
             enough == ReservedIn(s.cash, s.positions, (s.orders - {id})[next := moved])
    ensures after == Step(s, Op.Replace(id, limit, clientId, qty, next, now)) && Kept(after)
    ensures var moved := NextOrder(s.orders[id], limit, clientId, remaining, next, s.number + 1, now);
            after == if enough
                     then s.(orders := s.orders[id := MovedOn(s.orders[id], next, now)][next := moved],
                             order := s.order + [next], number := s.number + 1)
                     else s
  {
    hide Reserved, Kept, ReservedIn, NextOrder, MovedQty;
    StepKeeps(s, Op.Replace(id, limit, clientId, qty, next, now));
    MoveIsJudged(s, id, limit, clientId, remaining, next, now);
    after := Step(s, Op.Replace(id, limit, clientId, qty, next, now));
  }

  lemma NoteIs(s: State, id: string, text: string) returns (after: State)
    requires Kept(s)
    ensures after == Step(s, Op.Note(id, text)) && Kept(after)
    ensures after == if id in s.orders && Open(s.orders[id])
                     then s.(orders := s.orders[id := s.orders[id].(why := Noted(text))]) else s
    ensures id in s.orders && s.orders[id].why == Noted(text) ==> after == s
  {
    StepKeeps(s, Op.Note(id, text));
    hide Kept;
    after := Step(s, Op.Note(id, text));
    assert id in s.orders ==> s.orders[id := s.orders[id]] == s.orders;
  }

  lemma MarkStandIs(s: State, id: string) returns (after: State)
    requires Kept(s)
    ensures after == Step(s, Op.MarkStand(id)) && Kept(after)
    ensures after == if id in s.orders then s.(orders := s.orders[id := s.orders[id].(stand := true)]) else s
    ensures id in s.orders && s.orders[id].stand ==> after == s
  {
    StepKeeps(s, Op.MarkStand(id));
    hide Kept;
    after := Step(s, Op.MarkStand(id));
    assert id in s.orders ==> s.orders[id := s.orders[id]] == s.orders;
  }

  lemma SetMarksIs(s: State, marks: map<Symbol, real>) returns (after: State)
    requires Kept(s)
    ensures after == Step(s, Op.SetMarks(marks)) && Kept(after)
    ensures after == s.(positions := AllMarked(s, marks).positions)
    ensures Marking(s.positions, s.positions, marks, marks.Keys)
  {
    StepKeeps(s, Op.SetMarks(marks));
    hide Kept;
    after := Step(s, Op.SetMarks(marks));
  }

  /** Every symbol but the ones left has been marked, if there is something to mark. */
  ghost predicate Marking(before: map<Symbol, Position>, positions: map<Symbol, Position>, marks: map<Symbol, real>,
                          left: set<Symbol>) {
    && positions.Keys == before.Keys
    && forall s :: s in before ==> positions[s] == if s in left then before[s] else Marked(before[s], s, marks)
  }

  lemma MarkOne(before: map<Symbol, Position>, positions: map<Symbol, Position>, marks: map<Symbol, real>,
                left: set<Symbol>, s: Symbol)
    requires Marking(before, positions, marks, left) && s in left && s in marks
    ensures var marked := if s in positions && marks[s] > 0.0 && positions[s].mark != marks[s]
                          then positions[s := positions[s].(mark := marks[s])] else positions;
            Marking(before, marked, marks, left - {s})
  {
  }

  lemma AllAreMarked(s: State, positions: map<Symbol, Position>, marks: map<Symbol, real>)
    requires Marking(s.positions, positions, marks, {})
    ensures positions == AllMarked(s, marks).positions
  {
  }

  lemma SettleIs(s: State, symbol: Symbol, under: real, now: Time) returns (after: State)
    requires Kept(s)
    ensures after == Step(s, Op.Settle(symbol, under, now)) && Kept(after)
    ensures after == Settled(s, symbol, under, now)
  {
    StepKeeps(s, Op.Settle(symbol, under, now));
    hide Kept, Settled;
    after := Step(s, Op.Settle(symbol, under, now));
  }

  lemma ExpireDayIs(s: State, now: Time) returns (after: State)
    requires Kept(s)
    ensures after == Step(s, Op.ExpireDay(now)) && Kept(after) && after == s.(orders := DayExpired(s, now).orders)
    ensures SweptOrders(s, s.orders, now, {}) && SweptGone(s, [], now, {})
    ensures forall i, j :: 0 <= i < j < |s.order| ==> s.order[i] != s.order[j]
    ensures forall i :: 0 <= i < |s.order| ==> s.order[i] in s.orders
    ensures forall id :: id in s.orders ==> id in s.order
  {
    StepKeeps(s, Op.ExpireDay(now));
    EachOnce(s);
    after := Step(s, Op.ExpireDay(now));
  }

  /** These orders have been looked at: those whose session is over are put out. */
  ghost predicate SweptOrders(s: State, orders: map<string, Order>, now: Time, done: set<string>) {
    && orders.Keys == s.orders.Keys
    && (forall id :: id in s.orders ==>
          orders[id] == (if id in done then PutOut(s.orders[id], now) else s.orders[id]) && s.orders[id].id == id)
  }

  /** And they are handed out. */
  ghost predicate SweptGone(s: State, gone: seq<Order>, now: Time, done: set<string>) {
    && (forall o :: o in gone ==> o.id in done && o.id in s.orders && Over(s.orders[o.id], now) && o == PutOut(s.orders[o.id], now))
    && (forall id :: id in done && id in s.orders && Over(s.orders[id], now) ==> PutOut(s.orders[id], now) in gone)
  }

  lemma SweepOne(s: State, orders: map<string, Order>, gone: seq<Order>, now: Time, done: set<string>, id: string)
    requires SweptOrders(s, orders, now, done) && SweptGone(s, gone, now, done)
    requires id in s.orders && id !in done
    ensures id in orders && orders[id] == s.orders[id]
    ensures SweptOrders(s, orders[id := PutOut(s.orders[id], now)], now, done + {id})
    ensures Over(s.orders[id], now) ==> SweptGone(s, gone + [PutOut(s.orders[id], now)], now, done + {id})
    ensures !Over(s.orders[id], now) ==> SweptOrders(s, orders, now, done + {id}) && SweptGone(s, gone, now, done + {id})
  {
    hide Over;
    assert orders[id := orders[id]] == orders;
  }

  lemma SweptAll(s: State, orders: map<string, Order>, gone: seq<Order>, now: Time, done: set<string>)
    requires SweptOrders(s, orders, now, done) && SweptGone(s, gone, now, done)
    requires forall id :: id in s.orders ==> id in done
    ensures orders == DayExpired(s, now).orders
    ensures forall o :: o in gone ==> o.id in s.orders && Over(s.orders[o.id], now) && o == orders[o.id]
    ensures forall id :: id in s.orders && Over(s.orders[id], now) ==> orders[id] in gone
  {
    hide Over;
  }

  lemma FilledIsSane(s: State, id: string)
    requires Kept(s) && id in s.orders
    ensures s.orders[id].filledQty >= 0 && s.orders[id].id == id && WellKept(s.positions)
  {
  }

  lemma EachOnce(s: State)
    requires Kept(s)
    ensures forall i, j :: 0 <= i < j < |s.order| ==> s.order[i] != s.order[j]
    ensures forall i :: 0 <= i < |s.order| ==> s.order[i] in s.orders
    ensures forall id :: id in s.orders ==> id in s.order && s.orders[id].id == id
  {
  }

  lemma FillCounts(o: Order, sets: int, price: real, now: Time)
    requires sets >= 1 && o.filledQty >= 0
    ensures FilledBy(o, sets, price, now).filledQty == o.filledQty + sets && FilledBy(o, sets, price, now).legs == o.legs
  {
  }

  /** What the fill finds out about the projected book holds of the book it would leave. */
  lemma FillIs(s: State, id: string, sets: int, price: real, prices: map<Symbol, real>, now: Time,
               projected: seq<Position>, cashAfter: real, enough: bool) returns (after: State)
    requires Kept(s) && Fillable(s, id, sets) && s.orders[id].filledQty >= 0
    requires Lists(projected, WithLegs(s.positions, s.orders[id].legs, sets))
    requires cashAfter == s.cash - Owed(s.orders[id].legs, price, sets)
    requires enough == Suffices(cashAfter, projected)
    ensures after == Step(s, Op.Fill(id, sets, price, prices, now)) && Kept(after)
    ensures after == if enough then Booked(s, id, sets, price, prices, now) else Refused(s, id, sets, price, now)
    ensures var o := FilledBy(s.orders[id], sets, price, now);
            o.filledQty == s.orders[id].filledQty + sets && o.legs == s.orders[id].legs
  {
    FillCounts(s.orders[id], sets, price, now);
    StepKeeps(s, Op.Fill(id, sets, price, prices, now));
    hide Covered, Applied, WithLegs, Owed, FilledBy, Kept, Lists, Suffices;
    FilledIsSane(s, id);
    ProjectionIsFaithful(cashAfter, s.positions, s.orders[id].legs, sets, prices);
    ListSuffices(cashAfter, projected, WithLegs(s.positions, s.orders[id].legs, sets));
    after := Step(s, Op.Fill(id, sets, price, prices, now));
  }
}
