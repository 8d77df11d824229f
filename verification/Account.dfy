/** What every operation of the paper broker makes of an account, as functions of its
    state. The class in Book.dfy is proved to do exactly this; the theorems about whole
    runs are about these functions. */
module Account {
  import opened Payoff
  import opened Contracts
  import opened Sums
  import opened Risk
  import opened Ledger
  import Reservation

  // ---------- names ----------

  /** The index of the first equals sign, or the length. */
  function Equals(s: string): (i: nat)
    ensures i <= |s|
  {
    if s == "" || s[0] == '=' then 0 else 1 + Equals(s[1..])
  }

  function FirstTurn(fields: seq<string>): string {
    if fields == [] then ""
    else
      var i := Equals(fields[0]);
      if i < |fields[0]| && Reservation.TrimSpace(fields[0][..i]) == "turn"
      then Reservation.TrimSpace(fields[0][i + 1..])
      else FirstTurn(fields[1..])
  }

  /** The turn an order was born in, read off the name the agent gave it. */
  function TurnOf(clientId: string): string {
    FirstTurn(Reservation.Split(clientId))
  }

  // ---------- operations ----------

  /** What a new order asks for. */
  datatype Ticket = Ticket(
    clientId: string, qty: int, limit: real, market: bool, tif: string, legs: seq<SetLeg>, submittedAt: Time, expiresAt: Time)

  datatype Op =
    | Submit(ticket: Ticket, id: string)
    | Fill(id: string, sets: int, price: real, prices: map<Symbol, real>, now: Time)
    | Cancel(id: string, now: Time)
    | Replace(id: string, limit: real, clientId: string, qty: int, next: string, now: Time)
    | ExpireDay(now: Time)
    | Note(id: string, text: string)
    | MarkStand(id: string)
    | SetMarks(marks: map<Symbol, real>)
    | Settle(symbol: Symbol, under: real, now: Time)

  function Opened(start: real): State {
    State(start, start, map[], map[], [], [], 0)
  }

  // ---------- what standing orders reserve ----------

  /** How many sets of an order are still to come. */
  function Standing(o: Order): nat {
    if Open(o) && Remaining(o) >= 1 then Remaining(o) else 0
  }

  function Owed(legs: seq<SetLeg>, price: real, sets: int): real {
    Cost(price, sets) + Fees(legs, sets)
  }

  ghost function Money(): Order -> real {
    (o: Order) => Owed(o.legs, o.limit, Standing(o))
  }

  ghost function StandingWeight(w: Weight): Order -> real {
    (o: Order) => Times(Standing(o) as real, SetWeight(o.legs, w))
  }

  ghost function CashLeft(s: State): real {
    s.cash - MapSum(s.orders, Money())
  }

  ghost function ReservedWorth(s: State): Prices -> real {
    (prices: Prices) => HeldWorth(s.positions)(prices) + MapSum(s.orders, StandingWeight(Payout(prices)))
  }

  /** The account stands even when every standing order fills at its own limit. */
  ghost predicate Reserved(s: State) {
    Stands(CashLeft(s) - Margined(s.positions), ReservedWorth(s))
  }

  // ---------- submitting, filling ----------

  function OrderOf(t: Ticket, id: string, number: nat): Order {
    Order(id, t.clientId, TurnOf(t.clientId), New, t.qty, 0, t.limit, t.market, 0.0, 0.0, false, t.tif, t.legs,
          t.submittedAt, 0, 0, t.expiresAt, "", "", Quiet, number)
  }

  function Enter(s: State, o: Order): State {
    s.(orders := s.orders[o.id := o], order := s.order + [o.id], number := o.number)
  }

  function Placed(s: State, t: Ticket, id: string): State {
    Enter(s, OrderOf(t, id, s.number + 1))
  }

  /** Accepted exactly when the book with the order in it is still reserved. */
  ghost function Submitted(s: State, t: Ticket, id: string): State {
    if Reserved(Placed(s, t, id)) then Placed(s, t, id) else s
  }

  predicate Fillable(s: State, id: string, sets: int) {
    id in s.orders && Open(s.orders[id]) && 1 <= sets <= Remaining(s.orders[id])
  }

  /** The average of a price so many times and another so many. */
  function Weighted(average: real, n: int, price: real, sets: int): real
    requires n + sets > 0
  {
    (average * n as real + price * sets as real) / (n + sets) as real
  }

  function FilledBy(o: Order, sets: int, price: real, now: Time): Order
    requires 1 <= sets && o.filledQty >= 0
  {
    o.(fees := o.fees + Fees(o.legs, sets),
       filledAvg := Weighted(o.filledAvg, o.filledQty, price, sets),
       filledQty := o.filledQty + sets,
       filledAt := now,
       why := Quiet,
       status := if o.filledQty + sets >= o.qty then Filled else Partial)
  }

  function FillEvent(o: Order, sets: int, price: real, now: Time, filled: bool): Event {
    Event(o.id, EventKind.Fill, [], now, sets, price, if filled then Fees(o.legs, sets) else 0.0, filled,
          if filled then Quiet else NotEnough)
  }

  function Booked(s: State, id: string, sets: int, price: real, prices: map<Symbol, real>, now: Time): State
    requires Fillable(s, id, sets) && s.orders[id].filledQty >= 0
  {
    var o := s.orders[id];
    s.(positions := Applied(s.positions, o.legs, sets, prices),
       cash := s.cash - Owed(o.legs, price, sets),
       orders := s.orders[id := FilledBy(o, sets, price, now)],
       events := s.events + [FillEvent(o, sets, price, now, true)])
  }

  function Refused(s: State, id: string, sets: int, price: real, now: Time): State
    requires Fillable(s, id, sets)
  {
    var o := s.orders[id];
    s.(orders := s.orders[id := o.(why := NotEnough)],
       events := s.events + [FillEvent(o, sets, price, now, false)])
  }

  /** Booked exactly when the account it leaves is covered. */
  ghost function AfterFill(s: State, id: string, sets: int, price: real, prices: map<Symbol, real>, now: Time): State
    requires Fillable(s, id, sets) && s.orders[id].filledQty >= 0
  {
    var t := Booked(s, id, sets, price, prices, now);
    if Covered(t.cash, t.positions) then t else Refused(s, id, sets, price, now)
  }

  // ---------- withdrawing, moving ----------

  function Changed(s: State, id: string, o: Order): State {
    s.(orders := s.orders[id := o])
  }

  function Withdrawn(o: Order, now: Time): Order {
    o.(status := Canceled, canceledAt := now, why := ByTheParticipant)
  }

  /** How many sets a moved order asks for, or nothing when the move is refused. */
  function MovedQty(o: Order, qty: int): seq<int> {
    var left := if qty > 0 then qty - o.filledQty else Remaining(o);
    if left < 1 then [] else [left]
  }

  function NextOrder(o: Order, limit: real, clientId: string, qty: int, id: string, number: nat, now: Time): Order {
    var name := if clientId == "" then o.clientId else clientId;
    Order(id, name, TurnOf(name), New, qty, 0, limit, false, 0.0, 0.0, false, o.tif, o.legs,
          now, 0, 0, o.expiresAt, "", o.id, Quiet, number)
  }

  function MovedOn(o: Order, next: string, now: Time): Order {
    o.(status := Replaced, canceledAt := now, movedTo := next, why := Moved)
  }

  function Exchanged(s: State, id: string, limit: real, clientId: string, qty: int, next: string, now: Time): State
    requires id in s.orders
  {
    var o := s.orders[id];
    Enter(Changed(s, id, MovedOn(o, next, now)), NextOrder(o, limit, clientId, qty, next, s.number + 1, now))
  }

  /** Moved exactly when the book with the new order in the old one's place is reserved. */
  ghost function AfterReplace(s: State, id: string, limit: real, clientId: string, qty: int, next: string, now: Time): State {
    if id !in s.orders || !Open(s.orders[id]) || MovedQty(s.orders[id], qty) == [] then s
    else
      var t := Exchanged(s, id, limit, clientId, MovedQty(s.orders[id], qty)[0], next, now);
      if Reserved(t) then t else s
  }

  predicate Over(o: Order, now: Time) {
    Open(o) && o.tif == "day" && o.expiresAt != 0 && now >= o.expiresAt
  }

  function PutOut(o: Order, now: Time): Order {
    if Over(o, now) then o.(status := Expired, canceledAt := now, why := SessionOver) else o
  }

  function DayExpired(s: State, now: Time): State {
    s.(orders := map id | id in s.orders :: PutOut(s.orders[id], now))
  }

  // ---------- marks, settlement ----------

  function Marked(p: Position, s: Symbol, marks: map<Symbol, real>): Position {
    if s in marks && marks[s] > 0.0 then p.(mark := marks[s]) else p
  }

  function AllMarked(s: State, marks: map<Symbol, real>): State {
    s.(positions := map k | k in s.positions :: Marked(s.positions[k], k, marks))
  }

  const CASH_SETTLED: set<string> := {"SPX", "SPXW", "XSP", "NDX", "RUT", "VIX", "VIXW"}

  /** The intrinsic value in whole cents. */
  function InCents(c: Contract, under: real): real {
    Reservation.Round(WorthAt(c, under) * 100.0) as real / 100.0
  }

  /** Shares that come for so many contracts in the money, and the money that goes. */
  function Delivered(c: Contract, qty: int): int {
    if c.call then qty * 100 else -(qty * 100)
  }

  function Paid(c: Contract, qty: int): real {
    var money: real := c.strike * qty as real * 100.0;
    if c.call then -money else money
  }

  function InCash(value: real, qty: int): real {
    value * qty as real * 100.0
  }

  function Repriced(m: map<Symbol, Position>, s: Symbol, mark: real): map<Symbol, Position> {
    if s in m then m[s := m[s].(mark := mark)] else m
  }

  /** One option position settles: it expires empty, is settled in cash, or turns into
      shares at the strike. */
  function Settled(s: State, symbol: Symbol, under: real, now: Time): State {
    if symbol !in s.positions || symbol.Ticker? then s
    else
      var c, qty := symbol.contract, s.positions[symbol].qty;
      var value, rest := InCents(c, under), s.positions - {symbol};
      var e := Event("", Expiry, [symbol], now, qty, under, 0.0, false, Quiet);
      if value < 0.01 then s.(positions := rest, events := s.events + [e])
      else if c.series.root in CASH_SETTLED then
        s.(positions := rest, cash := s.cash + InCash(value, qty), events := s.events + [e.(kind := Settlement)])
      else
        var share := Ticker(c.series.root);
        s.(positions := Repriced(MovedBy(rest, share, UsEquity, Delivered(c, qty), c.strike), share, under),
           cash := s.cash + Paid(c, qty),
           events := s.events + [e.(kind := if qty < 0 then Assignment else Exercise)])
  }

  // ---------- runs ----------

  /** An identifier nobody has: identifiers are random, and none is drawn twice. */
  predicate Unused(s: State, id: string) {
    id != "" && id !in s.orders
  }

  /** The account after an operation; one that is refused changes nothing, but for a
      fill refused for want of collateral, which is told. */
  ghost function Step(s: State, op: Op): State {
    match op
    case Submit(t, id) => if Unused(s, id) then Submitted(s, t, id) else s
    case Fill(id, sets, price, prices, now) =>
      if Fillable(s, id, sets) && s.orders[id].filledQty >= 0 then AfterFill(s, id, sets, price, prices, now) else s
    case Cancel(id, now) =>
      if id in s.orders && Open(s.orders[id]) then Changed(s, id, Withdrawn(s.orders[id], now)) else s
    case Replace(id, limit, clientId, qty, next, now) =>
      if Unused(s, next) then AfterReplace(s, id, limit, clientId, qty, next, now) else s
    case ExpireDay(now) => DayExpired(s, now)
    case Note(id, text) =>
      if id in s.orders && Open(s.orders[id]) then Changed(s, id, s.orders[id].(why := Noted(text))) else s
    case MarkStand(id) =>
      if id in s.orders then Changed(s, id, s.orders[id].(stand := true)) else s
    case SetMarks(marks) => AllMarked(s, marks)
    case Settle(symbol, under, now) => Settled(s, symbol, under, now)
  }

  ghost function Run(s: State, ops: seq<Op>): State {
    if ops == [] then s else Step(Run(s, ops[..|ops| - 1]), ops[|ops| - 1])
  }

  // ---------- what every operation keeps ----------

  /** No order twice, and none missing. */
  ghost predicate Enumerates(order: seq<string>, orders: map<string, Order>) {
    && (forall i, j :: 0 <= i < j < |order| ==> order[i] != order[j])
    && (forall id :: id in orders <==> id in order)
  }

  /** Orders stand in the sequence they were numbered in. */
  ghost predicate InSequence(order: seq<string>, orders: map<string, Order>, last: nat) {
    && (forall i :: 0 <= i < |order| && order[i] in orders ==> orders[order[i]].number <= last)
    && (forall i, j :: 0 <= i < j < |order| && order[i] in orders && order[j] in orders ==>
          orders[order[i]].number < orders[order[j]].number)
  }

  predicate Sane(o: Order) {
    0 <= o.filledQty && (o.filledQty == 0 || o.filledQty <= o.qty)
  }

  ghost predicate Kept(s: State) {
    && WellKept(s.positions)
    && Enumerates(s.order, s.orders)
    && InSequence(s.order, s.orders, s.number)
    && (forall id :: id in s.orders ==> s.orders[id].id == id && id != "" && Sane(s.orders[id]))
  }

  lemma MovedByKeeps(m: map<Symbol, Position>, s: Symbol, kind: Kind, signed: int, price: real)
    requires WellKept(m) && (s.Option? <==> kind.UsOption?)
    ensures WellKept(MovedBy(m, s, kind, signed, price))
  {
    hide Average;
  }

  lemma {:induction false} AppliedKeeps(m: map<Symbol, Position>, legs: seq<SetLeg>, sets: int, prices: map<Symbol, real>)
    requires WellKept(m)
    ensures WellKept(Applied(m, legs, sets, prices))
  {
    hide WellKept, MovedBy;
    if legs == [] {
    } else {
      var last := legs[|legs| - 1];
      AppliedKeeps(m, legs[..|legs| - 1], sets, prices);
      MovedByKeeps(Applied(m, legs[..|legs| - 1], sets, prices), Option(last.contract), UsOption, Signed(last, sets),
                   PriceOf(prices, Option(last.contract)));
    }
  }

  lemma SettledKeeps(s: State, symbol: Symbol, under: real, now: Time)
    requires WellKept(s.positions)
    ensures WellKept(Settled(s, symbol, under, now).positions)
  {
    hide MovedBy, InCents;
    if symbol.Option? && symbol in s.positions {
      var c := symbol.contract;
      var rest := s.positions - {symbol};
      MovedByKeeps(rest, Ticker(c.series.root), UsEquity, Delivered(c, s.positions[symbol].qty), c.strike);
    }
  }

  lemma PositionsKept(s: State, op: Op)
    requires WellKept(s.positions)
    ensures WellKept(Step(s, op).positions)
  {
    hide Applied, Settled, Reserved, Covered;
    match op
    case Fill(id, sets, price, prices, now) =>
      if id in s.orders { AppliedKeeps(s.positions, s.orders[id].legs, sets, prices); }
    case Settle(symbol, under, now) => SettledKeeps(s, symbol, under, now);
    case _ =>
  }

  /** One order in place of another of the same name and number. */
  ghost predicate OrdersKept(s: State) {
    && Enumerates(s.order, s.orders)
    && InSequence(s.order, s.orders, s.number)
    && (forall id :: id in s.orders ==> s.orders[id].id == id && id != "" && Sane(s.orders[id]))
  }

  lemma ChangedKeeps(s: State, id: string, o: Order)
    requires OrdersKept(s) && id in s.orders && o.id == id && o.number == s.orders[id].number && Sane(o)
    ensures OrdersKept(Changed(s, id, o))
  {
    hide Enumerates, InSequence;
    SameKeys(s.order, s.orders, s.orders[id := o], s.number);
  }

  /** Orders that keep their names and numbers keep their order. */
  lemma SameKeys(order: seq<string>, orders: map<string, Order>, orders': map<string, Order>, last: nat)
    requires Enumerates(order, orders) && InSequence(order, orders, last)
    requires orders'.Keys == orders.Keys && forall id :: id in orders ==> orders'[id].number == orders[id].number
    ensures Enumerates(order, orders') && InSequence(order, orders', last)
  {
  }

  lemma EnterKeeps(s: State, o: Order)
    requires OrdersKept(s) && Unused(s, o.id) && o.number == s.number + 1 && Sane(o)
    ensures OrdersKept(Enter(s, o))
  {
    hide Enumerates, InSequence;
    EnterEnumerates(s.order, s.orders, o);
    EnterInSequence(s.order, s.orders, s.number, o);
  }

  lemma EnterEnumerates(order: seq<string>, orders: map<string, Order>, o: Order)
    requires Enumerates(order, orders) && o.id !in orders
    ensures Enumerates(order + [o.id], orders[o.id := o])
  {
  }

  lemma EnterInSequence(order: seq<string>, orders: map<string, Order>, last: nat, o: Order)
    requires Enumerates(order, orders) && InSequence(order, orders, last) && o.id !in orders && o.number == last + 1
    ensures InSequence(order + [o.id], orders[o.id := o], o.number)
  {
    var order', orders' := order + [o.id], orders[o.id := o];
    forall i | 0 <= i < |order| ensures order'[i] == order[i] && order[i] in orders && orders'[order[i]] == orders[order[i]] {
      assert order[i] in order;
    }
  }

  lemma SameOrders(s: State, t: State)
    requires OrdersKept(s) && t.orders == s.orders && t.order == s.order && t.number == s.number
    ensures OrdersKept(t)
  {
  }

  lemma DayExpiredKeeps(s: State, now: Time)
    requires OrdersKept(s)
    ensures OrdersKept(DayExpired(s, now))
  {
    hide Enumerates, InSequence;
    SameKeys(s.order, s.orders, DayExpired(s, now).orders, s.number);
  }

  lemma OrdersAreKept(s: State, op: Op)
    requires OrdersKept(s)
    ensures OrdersKept(Step(s, op))
  {
    hide Reserved, Covered, Applied, Settled, Enumerates, InSequence, Changed, Enter;
    match op
    case Submit(t, id) => if Unused(s, id) { EnterKeeps(s, OrderOf(t, id, s.number + 1)); }
    case Fill(id, sets, price, prices, now) =>
      if Fillable(s, id, sets) {
        FilledKeeps(s, id, sets, price, prices, now);
      }
    case Cancel(id, now) => if id in s.orders { ChangedKeeps(s, id, Withdrawn(s.orders[id], now)); }
    case Replace(id, limit, clientId, qty, next, now) =>
      if id in s.orders && Unused(s, next) && MovedQty(s.orders[id], qty) != [] {
        ExchangedKeeps(s, id, limit, clientId, MovedQty(s.orders[id], qty)[0], next, now);
      }
    case ExpireDay(now) => DayExpiredKeeps(s, now);
    case Note(id, text) => if id in s.orders { ChangedKeeps(s, id, s.orders[id].(why := Noted(text))); }
    case MarkStand(id) => if id in s.orders { ChangedKeeps(s, id, s.orders[id].(stand := true)); }
    case SetMarks(marks) => SameOrders(s, Step(s, op));
    case Settle(symbol, under, now) => SettledOrders(s, symbol, under, now); SameOrders(s, Step(s, op));
  }

  lemma SettledOrders(s: State, symbol: Symbol, under: real, now: Time)
    ensures var t := Settled(s, symbol, under, now);
            t.orders == s.orders && t.order == s.order && t.number == s.number && t.start == s.start
  {
    hide MovedBy, InCents;
  }

  lemma FilledKeeps(s: State, id: string, sets: int, price: real, prices: map<Symbol, real>, now: Time)
    requires OrdersKept(s) && Fillable(s, id, sets)
    ensures OrdersKept(AfterFill(s, id, sets, price, prices, now))
  {
    hide Covered, Applied, Enumerates, InSequence;
    var o := s.orders[id];
    ChangedKeeps(s, id, FilledBy(o, sets, price, now));
    SameOrders(Changed(s, id, FilledBy(o, sets, price, now)), Booked(s, id, sets, price, prices, now));
    ChangedKeeps(s, id, o.(why := NotEnough));
    SameOrders(Changed(s, id, o.(why := NotEnough)), Refused(s, id, sets, price, now));
  }

  lemma ExchangedKeeps(s: State, id: string, limit: real, clientId: string, qty: int, next: string, now: Time)
    requires OrdersKept(s) && id in s.orders && Unused(s, next)
    ensures OrdersKept(Exchanged(s, id, limit, clientId, qty, next, now))
  {
    hide Enumerates, InSequence;
    var o := s.orders[id];
    ChangedKeeps(s, id, MovedOn(o, next, now));
    EnterKeeps(Changed(s, id, MovedOn(o, next, now)), NextOrder(o, limit, clientId, qty, next, s.number + 1, now));
  }

  /** Every operation keeps the book in shape, from an account just opened on. */
  lemma {:induction false} EveryRunIsKept(start: real, ops: seq<Op>)
    ensures Kept(Run(Opened(start), ops))
  {
    hide Step;
    if ops == [] {
    } else {
      var s := Run(Opened(start), ops[..|ops| - 1]);
      EveryRunIsKept(start, ops[..|ops| - 1]);
      PositionsKept(s, ops[|ops| - 1]);
      OrdersAreKept(s, ops[|ops| - 1]);
    }
  }

  lemma StepKeeps(s: State, op: Op)
    requires Kept(s)
    ensures Kept(Step(s, op))
  {
    hide Step;
    PositionsKept(s, op);
    OrdersAreKept(s, op);
  }
}
