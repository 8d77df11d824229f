/** The file every book is kept in. Saving rewrites the positions, writes new orders whole
    but old ones only in part, and appends events; loading reads it back after a restart.

    What is written and what is not is exactly what the program's statements name; that it
    is enough rests on what no operation ever changes. */
module Store {
  import opened Contracts
  import opened Risk
  import opened Ledger
  import opened Account

  /** The row of a book. */
  datatype Row = Row(name: string, cash: real, start: real, lastEquity: real, closedOn: string, number: nat)

  /** The rows one participant has. An order's row has a column for each of its fields. */
  datatype File = File(row: Row, positions: map<Symbol, Position>, orders: map<string, Order>, events: map<nat, Event>)

  /** A book in memory: the account, and what is kept beside it. */
  datatype Memory = Memory(state: State, name: string, lastEquity: real, closedOn: string, saved: nat)

  const BLANK := Event("", NoKind, [], 0, 0, 0.0, 0.0, false, Quiet)

  // ---------- saving ----------

  /** The columns an order's row takes over when the row is there already. Quantity, time
      in force, market flag, legs, submission time, origin and number are not among them. */
  function Upserted(row: Order, o: Order): Order {
    row.(clientId := o.clientId, status := o.status, filledQty := o.filledQty, limit := o.limit, filledAvg := o.filledAvg,
         fees := o.fees, filledAt := o.filledAt, canceledAt := o.canceledAt, expiresAt := o.expiresAt, movedTo := o.movedTo,
         why := o.why, turnRef := o.turnRef, stand := o.stand)
  }

  function OrderRows(rows: map<string, Order>, orders: map<string, Order>): map<string, Order> {
    map id | id in rows.Keys + orders.Keys ::
      if id !in orders then rows[id] else if id in rows then Upserted(rows[id], orders[id]) else orders[id]
  }

  function UpTo(n: nat): (all: set<nat>)
    ensures |all| == n && forall i: nat :: i in all <==> i < n
  {
    if n == 0 then {} else UpTo(n - 1) + {n - 1}
  }

  function EventRows(rows: map<nat, Event>, events: seq<Event>, from: nat): map<nat, Event> {
    map i: nat | i in rows.Keys + (UpTo(|events|) - UpTo(from)) :: if i in rows then rows[i] else events[i]
  }

  const NO_ROWS := File(Row("", 0.0, 0.0, 0.0, "", 0), map[], map[], map[])

  /** What the file holds of a book once it is saved. */
  function Saved(old': File, m: Memory): File {
    var s := m.state;
    File(Row(if m.name == "" then old'.row.name else m.name, s.cash, s.start, m.lastEquity, m.closedOn, s.number),
         s.positions, OrderRows(old'.orders, s.orders), EventRows(old'.events, s.events, m.saved))
  }

  function AfterSave(m: Memory): Memory {
    m.(saved := |m.state.events|)
  }

  // ---------- loading ----------

  ghost predicate IsLeast(orders: map<string, Order>, id: string) {
    id in orders && forall k :: k in orders ==> orders[id].number <= orders[k].number
  }

  lemma {:induction false} LeastExists(orders: map<string, Order>)
    requires orders != map[]
    ensures exists id :: IsLeast(orders, id)
    decreases |orders|
  {
    var k :| k in orders;
    if orders - {k} == map[] {
      assert orders.Keys == {k} + (orders - {k}).Keys;
      assert IsLeast(orders, k);
    } else {
      LeastExists(orders - {k});
      var id :| IsLeast(orders - {k}, id);
      assert forall j :: j in orders ==> j == k || j in orders - {k};
      assert IsLeast(orders, if orders[k].number < orders[id].number then k else id);
    }
  }

  /** The orders by number, as the query asks for them. */
  ghost function ByNumber(orders: map<string, Order>): seq<string>
    decreases |orders|
  {
    if orders == map[] then []
    else
      LeastExists(orders);
      var id :| IsLeast(orders, id);
      [id] + ByNumber(orders - {id})
  }

  /** The book a file and a roster name bring up. Events are not read back: there are only
      as many blanks as there are rows. */
  ghost function Loaded(file: File, roster: string): Memory {
    var saved := |file.events|;
    Memory(State(file.row.cash, file.row.start, file.positions, file.orders, ByNumber(file.orders),
                 seq(saved, _ => BLANK), file.row.number),
           if roster == "" then file.row.name else roster, file.row.lastEquity, file.row.closedOn, saved)
  }

  /** One order of submission is all the numbers allow. */
  lemma {:induction false} SubmissionOrderIsReadBack(order: seq<string>, orders: map<string, Order>, last: nat)
    requires Enumerates(order, orders) && InSequence(order, orders, last)
    ensures ByNumber(orders) == order
    decreases |order|
  {
    hide *;
    if order == [] {
      NothingByNumber(order, orders);
    } else {
      var rest, others := FirstByNumber(order, orders, last);
      SubmissionOrderIsReadBack(rest, others, last);
    }
  }

  lemma NothingByNumber(order: seq<string>, orders: map<string, Order>)
    requires Enumerates(order, orders) && order == []
    ensures ByNumber(orders) == order
  {
    assert orders == map[];
  }

  lemma FirstByNumber(order: seq<string>, orders: map<string, Order>, last: nat)
      returns (rest: seq<string>, others: map<string, Order>)
    requires order != [] && Enumerates(order, orders) && InSequence(order, orders, last)
    ensures |rest| < |order| && Enumerates(rest, others) && InSequence(rest, others, last)
    ensures ByNumber(others) == rest ==> ByNumber(orders) == order
  {
    hide IsLeast, Enumerates, InSequence, ByNumber;
    rest, others := order[1..], orders - {order[0]};
    RestIsInSequence(order, orders, last);
    FirstIsLeast(order, orders, last);
    ByNumberFrom(orders, order[0]);
    assert order == [order[0]] + rest;
  }

  lemma ByNumberFrom(orders: map<string, Order>, first: string)
    requires orders != map[] && forall id :: IsLeast(orders, id) <==> id == first
    ensures ByNumber(orders) == [first] + ByNumber(orders - {first})
  {
    hide IsLeast;
  }

  lemma FirstIsLeast(order: seq<string>, orders: map<string, Order>, last: nat)
    requires order != [] && Enumerates(order, orders) && InSequence(order, orders, last)
    ensures orders != map[] && forall id :: IsLeast(orders, id) <==> id == order[0]
  {
    assert order[0] in order;
    forall k | k in orders && k != order[0] ensures orders[order[0]].number < orders[k].number {
      var i :| 0 <= i < |order| && order[i] == k;
    }
  }

  lemma RestIsInSequence(order: seq<string>, orders: map<string, Order>, last: nat)
    requires order != [] && Enumerates(order, orders) && InSequence(order, orders, last)
    ensures Enumerates(order[1..], orders - {order[0]}) && InSequence(order[1..], orders - {order[0]}, last)
  {
    RestEnumerates(order, orders);
    hide Enumerates;
    var rest := order[1..];
    forall i | 0 <= i < |rest| ensures rest[i] == order[i + 1] {
    }
  }

  lemma RestEnumerates(order: seq<string>, orders: map<string, Order>)
    requires order != [] && Enumerates(order, orders)
    ensures Enumerates(order[1..], orders - {order[0]})
  {
    var rest := order[1..];
    assert order == [order[0]] + rest;
    forall i, j | 0 <= i < j < |rest| ensures rest[i] != rest[j] {
      assert rest[i] == order[i + 1] && rest[j] == order[j + 1];
    }
    forall i | 0 <= i < |rest| ensures rest[i] != order[0] {
      assert rest[i] == order[i + 1];
    }
  }

  // ---------- what no operation changes ----------

  /** The columns that are never written again. */
  predicate SameColumns(o: Order, o': Order) {
    && o'.id == o.id && o'.qty == o.qty && o'.market == o.market && o'.tif == o.tif && o'.legs == o.legs
    && o'.submittedAt == o.submittedAt && o'.movedFrom == o.movedFrom && o'.number == o.number
  }

  lemma UpsertIsEnough(o: Order, o': Order)
    requires SameColumns(o, o')
    ensures Upserted(o, o') == o'
  {
  }

  /** No order is ever forgotten, and none changes in those columns. */
  ghost predicate OrdersLastOn(orders: map<string, Order>, orders': map<string, Order>) {
    forall id :: id in orders ==> id in orders' && SameColumns(orders[id], orders'[id])
  }

  lemma OneLastsOn(orders: map<string, Order>, id: string, o: Order)
    requires id in orders && SameColumns(orders[id], o)
    ensures OrdersLastOn(orders, orders[id := o])
  {
  }

  lemma AnotherLastsOn(orders: map<string, Order>, orders': map<string, Order>, o: Order)
    requires OrdersLastOn(orders, orders') && o.id !in orders
    ensures OrdersLastOn(orders, orders'[o.id := o])
  {
  }

  lemma AllLastOn(orders: map<string, Order>)
    ensures OrdersLastOn(orders, orders)
  {
  }

  lemma FilledLastsOn(o: Order, sets: int, price: real, now: Time)
    requires sets >= 1 && o.filledQty >= 0
    ensures SameColumns(o, FilledBy(o, sets, price, now))
  {
    hide Weighted, Fees;
  }

  lemma DayExpiredLastsOn(orders: map<string, Order>, s: State, now: Time)
    requires s.orders == orders
    ensures OrdersLastOn(orders, DayExpired(s, now).orders)
  {
  }

  lemma FixedColumnsNeverChange(s: State, op: Op)
    ensures OrdersLastOn(s.orders, Step(s, op).orders) && Step(s, op).start == s.start
  {
    hide Reserved, Covered, Applied, Settled, OrdersLastOn, FilledBy, Over, TurnOf;
    AllLastOn(s.orders);
    match op
    case Submit(t, id) => if Unused(s, id) { AnotherLastsOn(s.orders, s.orders, OrderOf(t, id, s.number + 1)); }
    case Fill(id, sets, price, prices, now) =>
      if Fillable(s, id, sets) && s.orders[id].filledQty >= 0 {
        FilledLastsOn(s.orders[id], sets, price, now);
        OneLastsOn(s.orders, id, FilledBy(s.orders[id], sets, price, now));
        OneLastsOn(s.orders, id, s.orders[id].(why := NotEnough));
      }
    case Cancel(id, now) => if id in s.orders { OneLastsOn(s.orders, id, Withdrawn(s.orders[id], now)); }
    case Replace(id, limit, clientId, qty, next, now) =>
      if id in s.orders && Unused(s, next) && MovedQty(s.orders[id], qty) != [] {
        OneLastsOn(s.orders, id, MovedOn(s.orders[id], next, now));
        AnotherLastsOn(s.orders, s.orders[id := MovedOn(s.orders[id], next, now)],
                       NextOrder(s.orders[id], limit, clientId, MovedQty(s.orders[id], qty)[0], next, s.number + 1, now));
      }
    case ExpireDay(now) => DayExpiredLastsOn(s.orders, s, now);
    case Note(id, text) => if id in s.orders { OneLastsOn(s.orders, id, s.orders[id].(why := Noted(text))); }
    case MarkStand(id) => if id in s.orders { OneLastsOn(s.orders, id, s.orders[id].(stand := true)); }
    case SetMarks(marks) =>
    case Settle(symbol, under, now) => SettledOrders(s, symbol, under, now);
  }

  // ---------- memory and file agree ----------

  /** The same book, but for what its events say. */
  ghost predicate Same(s: State, t: State) {
    Bare(s) == Bare(t) && |s.events| == |t.events|
  }

  /** The account without its events. */
  function Bare(s: State): State {
    s.(events := [])
  }

  /** The operation does to the account what it does without the events, and appends the
      same ones. */
  ghost predicate Blind(s: State, op: Op) {
    Bare(Step(s, op)) == Bare(Step(Bare(s), op)) && Step(s, op).events == s.events + Step(Bare(s), op).events
  }

  lemma JudgedAlike(s: State, t: State)
    requires Bare(s) == Bare(t)
    ensures Reserved(s) == Reserved(t)
  {
    StandsAlike(CashLeft(s) - Margined(s.positions), ReservedWorth(s), ReservedWorth(t));
  }

  lemma SubmitIsBlind(s: State, t: Ticket, id: string)
    ensures Blind(s, Submit(t, id))
  {
    JudgedAlike(Placed(s, t, id), Placed(Bare(s), t, id));
    hide Reserved, OrderOf;
    assert s.events + [] == s.events;
  }

  lemma ReplaceIsBlind(s: State, id: string, limit: real, clientId: string, qty: int, next: string, now: Time)
    ensures Blind(s, Replace(id, limit, clientId, qty, next, now))
  {
    if id in s.orders && MovedQty(s.orders[id], qty) != [] {
      var left := MovedQty(s.orders[id], qty)[0];
      JudgedAlike(Exchanged(s, id, limit, clientId, left, next, now), Exchanged(Bare(s), id, limit, clientId, left, next, now));
    }
    hide Reserved, NextOrder, MovedOn, MovedQty;
    assert s.events + [] == s.events;
  }

  lemma FillIsBlind(s: State, id: string, sets: int, price: real, prices: map<Symbol, real>, now: Time)
    ensures Blind(s, Op.Fill(id, sets, price, prices, now))
  {
    hide Covered, Applied, FilledBy, FillEvent, Owed;
    assert s.events + [] == s.events;
  }

  lemma SettleIsBlind(s: State, symbol: Symbol, under: real, now: Time)
    ensures Blind(s, Settle(symbol, under, now))
  {
    hide MovedBy, InCents, Repriced, Paid, Delivered, InCash;
    assert s.events + [] == s.events;
  }

  /** No operation reads the events. */
  lemma StepIsBlind(s: State, op: Op)
    ensures Blind(s, op)
  {
    match op
    case Submit(t, id) => SubmitIsBlind(s, t, id);
    case Fill(id, sets, price, prices, now) => FillIsBlind(s, id, sets, price, prices, now);
    case Replace(id, limit, clientId, qty, next, now) => ReplaceIsBlind(s, id, limit, clientId, qty, next, now);
    case Settle(symbol, under, now) => SettleIsBlind(s, symbol, under, now);
    case _ => assert s.events + [] == s.events;
  }

  lemma StepIgnoresEvents(s: State, t: State, op: Op)
    requires Same(s, t)
    ensures Same(Step(s, op), Step(t, op))
    ensures s.events <= Step(s, op).events && t.events <= Step(t, op).events
    ensures Step(s, op).events[|s.events|..] == Step(t, op).events[|t.events|..]
  {
    StepIsBlind(s, op);
    StepIsBlind(t, op);
    hide Step;
  }

  /** The file holds this state of the account, with every event there ever was. */
  ghost predicate Holds(file: File, s: State) {
    && file.row.cash == s.cash && file.row.start == s.start && file.row.number == s.number
    && file.positions == s.positions && file.orders == s.orders
    && file.events.Keys == UpTo(|s.events|)
    && forall i :: 0 <= i < |s.events| ==> file.events[i] == s.events[i]
  }

  /** Memory is that state too, and the rest of it is as the file has it. */
  ghost predicate Agrees(file: File, m: Memory, s: State) {
    && Same(m.state, s) && m.saved == |s.events|
    && file.row.lastEquity == m.lastEquity && file.row.closedOn == m.closedOn
  }

  /** What happens to a book: an operation, the day's close, or a restart. */
  datatype Moment = Do(op: Op) | Close(day: string, equity: real) | Restart(roster: string)

  /** Every operation saves the book before the next one begins. */
  ghost function After(file: File, m: Memory, moment: Moment): (File, Memory) {
    match moment
    case Do(op) =>
      var m' := m.(state := Step(m.state, op));
      (Saved(file, m'), AfterSave(m'))
    case Close(day, equity) =>
      if m.closedOn == day then (file, m)
      else
        var m' := m.(closedOn := day, lastEquity := equity);
        (Saved(file, m'), AfterSave(m'))
    case Restart(roster) => (file, Loaded(file, roster))
  }

  ghost function Life(start: real, name: string, moments: seq<Moment>): (File, Memory) {
    if moments == [] then
      var m := Memory(Opened(start), name, start, "", 0);
      (Saved(NO_ROWS, m), AfterSave(m))
    else
      var (file, m) := Life(start, name, moments[..|moments| - 1]);
      After(file, m, moments[|moments| - 1])
  }

  /** The operations of a life, as if nothing had ever restarted. */
  ghost function Operations(moments: seq<Moment>): seq<Op> {
    if moments == [] then []
    else
      var last := moments[|moments| - 1];
      Operations(moments[..|moments| - 1]) + if last.Do? then [last.op] else []
  }

  lemma RowsAreOrders(rows: map<string, Order>, orders: map<string, Order>)
    requires OrdersLastOn(rows, orders)
    ensures OrderRows(rows, orders) == orders
  {
    hide SameColumns, Upserted;
    forall id | id in rows ensures Upserted(rows[id], orders[id]) == orders[id] {
      UpsertIsEnough(rows[id], orders[id]);
    }
    assert rows.Keys + orders.Keys == orders.Keys;
  }

  lemma RowsAreEvents(rows: map<nat, Event>, before: seq<Event>, events: seq<Event>, after: seq<Event>)
    requires rows.Keys == UpTo(|before|) && forall i :: 0 <= i < |before| ==> rows[i] == before[i]
    requires before <= after && |events| == |after| && events[|before|..] == after[|before|..]
    ensures EventRows(rows, events, |before|).Keys == UpTo(|after|)
    ensures forall i :: 0 <= i < |after| ==> EventRows(rows, events, |before|)[i] == after[i]
  {
    hide UpTo;
    var t := EventRows(rows, events, |before|);
    forall i: nat ensures i in t <==> i < |after| {
    }
    forall i | 0 <= i < |after| ensures t[i] == after[i] {
      if i >= |before| {
        assert events[i] == events[|before|..][i - |before|] && after[i] == after[|before|..][i - |before|];
      }
    }
    assert t.Keys == UpTo(|after|);
  }

  lemma SavedHolds(file: File, m: Memory, s: State, m': Memory, t: State)
    requires Holds(file, s) && Agrees(file, m, s) && Same(m'.state, t) && m'.saved == m.saved
    requires OrdersLastOn(s.orders, t.orders)
    requires s.events <= t.events && m'.state.events[|s.events|..] == t.events[|s.events|..]
    ensures Holds(Saved(file, m'), t) && Agrees(Saved(file, m'), AfterSave(m'), t)
  {
    hide OrderRows, EventRows, UpTo, OrdersLastOn;
    RowsAreOrders(file.orders, t.orders);
    RowsAreEvents(file.events, s.events, m'.state.events, t.events);
  }

  lemma EventsAreCounted(file: File, s: State)
    requires Holds(file, s)
    ensures |file.events| == |s.events|
  {
    assert |file.events| == |file.events.Keys|;
  }

  /** Loading brings the same book up again. */
  lemma LoadedAgrees(file: File, roster: string, s: State)
    requires Holds(file, s) && Kept(s)
    ensures Agrees(file, Loaded(file, roster), s)
    ensures Loaded(file, roster).state.order == s.order
  {
    EventsAreCounted(file, s);
    SubmissionOrderIsReadBack(s.order, s.orders, s.number);
  }

  lemma MomentKeepsTheFile(file: File, m: Memory, s: State, moment: Moment)
    requires Kept(s) && Holds(file, s) && Agrees(file, m, s)
    ensures var (file', m') := After(file, m, moment);
            var t := if moment.Do? then Step(s, moment.op) else s;
            Holds(file', t) && Agrees(file', m', t)
  {
    hide Step, Kept, Holds, Saved, OrdersLastOn, Same, Loaded, Agrees;
    match moment
    case Do(op) =>
      SameLength(file, m, s);
      StepIgnoresEvents(m.state, s, op);
      FixedColumnsNeverChange(s, op);
      SavedHolds(file, m, s, m.(state := Step(m.state, op)), Step(s, op));
    case Close(day, equity) =>
      if m.closedOn != day {
        SameLength(file, m, s);
        NothingHappens(m.state, s);
        SavedHolds(file, m, s, m.(closedOn := day, lastEquity := equity), s);
      }
    case Restart(roster) => LoadedAgrees(file, roster, s);
  }

  lemma SameLength(file: File, m: Memory, s: State)
    requires Agrees(file, m, s)
    ensures Same(m.state, s) && |m.state.events| == |s.events|
  {
  }

  lemma NothingHappens(s: State, t: State)
    requires Same(s, t)
    ensures OrdersLastOn(t.orders, t.orders) && t.events <= t.events && s.events[|t.events|..] == t.events[|t.events|..]
  {
  }

  lemma TheFirstSaveHolds(start: real, name: string)
    ensures Holds(Life(start, name, []).0, Opened(start)) && Agrees(Life(start, name, []).0, Life(start, name, []).1, Opened(start))
  {
  }

  /** Memory and store agree after every operation, and restarts are invisible: whatever a
      book goes through, with restarts anywhere in between, the file then holds, field for
      field and event for event, the state the operations alone would have led to, and so
      does memory, but for what the events before the last restart said. */
  lemma {:induction false} RestartsAreInvisible(start: real, name: string, moments: seq<Moment>)
    ensures var (file, m) := Life(start, name, moments);
            var s := Run(Opened(start), Operations(moments));
            Holds(file, s) && Agrees(file, m, s)
  {
    if moments == [] {
      TheFirstSaveHolds(start, name);
    } else {
      var init, last := moments[..|moments| - 1], moments[|moments| - 1];
      RestartsAreInvisible(start, name, init);
      EveryRunIsKept(start, Operations(init));
      var (file, m) := Life(start, name, init);
      MomentKeepsTheFile(file, m, Run(Opened(start), Operations(init)), last);
      OneMoreOperation(start, moments);
      hide Holds, Agrees, After, Operations, Run, Kept;
    }
  }

  lemma OneMoreOperation(start: real, moments: seq<Moment>)
    requires moments != []
    ensures var before := Run(Opened(start), Operations(moments[..|moments| - 1]));
            var last := moments[|moments| - 1];
            Run(Opened(start), Operations(moments)) == if last.Do? then Step(before, last.op) else before
  {
    hide Step;
    var init, last := moments[..|moments| - 1], moments[|moments| - 1];
    if last.Do? {
      assert (Operations(init) + [last.op])[..|Operations(init)|] == Operations(init);
    } else {
      assert Operations(init) + [] == Operations(init);
    }
  }

  /** Loading after any such life rebuilds cash, positions, every field of every order and
      the order of submission. */
  lemma LoadRebuildsTheBook(start: real, name: string, moments: seq<Moment>, roster: string)
    ensures var (file, _) := Life(start, name, moments);
            var s := Run(Opened(start), Operations(moments));
            var loaded := Loaded(file, roster).state;
            && loaded.cash == s.cash && loaded.positions == s.positions && loaded.orders == s.orders
            && loaded.order == s.order && loaded.number == s.number && |loaded.events| == |s.events|
  {
    RestartsAreInvisible(start, name, moments);
    EveryRunIsKept(start, Operations(moments));
    LoadedAgrees(Life(start, name, moments).0, roster, Run(Opened(start), Operations(moments)));
  }

  // ---------- the store itself ----------

  /** Orders stand under their own names, no two with one number. */
  ghost predicate Numbered(orders: map<string, Order>) {
    && (forall id :: id in orders ==> orders[id].id == id)
    && (forall a, b :: a in orders && b in orders && orders[a].number == orders[b].number ==> a == b)
  }

  /** Whatever is loaded was saved from a book in shape: its rows are numbered apart. */
  lemma HeldRowsAreNumbered(file: File, s: State)
    requires Holds(file, s) && Kept(s)
    ensures Numbered(file.orders)
  {
    hide UpTo;
    forall a, b | a in s.orders && b in s.orders && a != b ensures s.orders[a].number != s.orders[b].number {
      var i :| 0 <= i < |s.order| && s.order[i] == a;
      var j :| 0 <= j < |s.order| && s.order[j] == b;
      if i < j {
        assert s.orders[s.order[i]].number < s.orders[s.order[j]].number;
      } else {
        assert s.orders[s.order[j]].number < s.orders[s.order[i]].number;
      }
    }
  }

  /** So after any life of a book its file can be loaded. */
  lemma EveryFileCanBeLoaded(start: real, name: string, moments: seq<Moment>)
    ensures Numbered(Life(start, name, moments).0.orders)
  {
    hide Kept, Holds, Numbered, Life, Operations, Run;
    RestartsAreInvisible(start, name, moments);
    EveryRunIsKept(start, Operations(moments));
    HeldRowsAreNumbered(Life(start, name, moments).0, Run(Opened(start), Operations(moments)));
  }

  lemma LeastIsUnique(orders: map<string, Order>, id: string)
    requires Numbered(orders) && IsLeast(orders, id)
    ensures id in orders && ByNumber(orders) == [id] + ByNumber(orders - {id}) && Numbered(orders - {id})
  {
    forall k | IsLeast(orders, k) ensures k == id {
      assert orders[k].number == orders[id].number;
    }
    LeastExists(orders);
  }

  /** The first row the query hands out. */
  method LeastNumbered(rows: map<string, Order>) returns (least: string)
    requires rows != map[]
    ensures IsLeast(rows, least)
  {
    var left := rows.Keys;
    least :| least in rows;
    while left != {}
      invariant left <= rows.Keys && least in rows
      invariant forall id :: id in rows && id !in left ==> rows[least].number <= rows[id].number
      decreases |left|
    {
      var id :| id in left;
      left := left - {id};
      if rows[id].number < rows[least].number {
        least := id;
      }
    }
  }

  /** The events that are not in the file yet, each under its place in the log. */
  method AppendEvents(rows: map<nat, Event>, events: seq<Event>, from: nat) returns (after: map<nat, Event>)
    ensures after == EventRows(rows, events, from)
  {
    hide EventRows, UpTo;
    after := rows;
    var i := from;
    while i < |events|
      invariant from <= i && (i == from || i <= |events|)
      invariant Appended(rows, events, from, i, after)
    {
      if i !in after {
        after := after[i := events[i]];
      }
      i := i + 1;
    }
    AllAppended(rows, events, from, i, after);
  }

  /** The events from one place up to another are there too. */
  ghost predicate Appended(rows: map<nat, Event>, events: seq<Event>, from: nat, i: nat, after: map<nat, Event>) {
    && (forall k: nat :: k in after <==> k in rows || from <= k < i)
    && (forall k: nat :: k in rows ==> after[k] == rows[k])
    && (forall k: nat :: k !in rows && from <= k < i && k < |events| ==> after[k] == events[k])
  }

  lemma AllAppended(rows: map<nat, Event>, events: seq<Event>, from: nat, i: nat, after: map<nat, Event>)
    requires Appended(rows, events, from, i, after) && from <= i && |events| <= i && (i == from || i <= |events|)
    ensures after == EventRows(rows, events, from)
  {
    hide UpTo;
    var all := EventRows(rows, events, from);
    forall k: nat ensures k in all <==> k in after {
    }
  }

  /** New orders are written whole, known ones in part. */
  method WriteOrders(rows: map<string, Order>, orders: map<string, Order>) returns (after: map<string, Order>)
    requires forall id :: id in orders ==> orders[id].id == id
    ensures after == OrderRows(rows, orders)
  {
    hide OrderRows, Upserted;
    after := rows;
    var left := orders.Keys;
    NoOrderWritten(rows, orders);
    while left != {}
      invariant left <= orders.Keys
      invariant after == OrderRows(rows, orders - left)
      decreases |left|
    {
      var id :| id in left;
      OneOrderWritten(rows, orders, left, id);
      left := left - {id};
      var o := orders[id];
      after := after[o.id := if o.id in after then Upserted(after[o.id], o) else o];
    }
    assert orders - {} == orders;
  }

  lemma NoOrderWritten(rows: map<string, Order>, orders: map<string, Order>)
    ensures OrderRows(rows, orders - orders.Keys) == rows
  {
    assert orders - orders.Keys == map[];
    assert rows.Keys + {} == rows.Keys;
  }

  lemma OneOrderWritten(rows: map<string, Order>, orders: map<string, Order>, left: set<string>, id: string)
    requires id in left && left <= orders.Keys
    ensures var before := OrderRows(rows, orders - left);
            && (id in before <==> id in rows) && (id in rows ==> before[id] == rows[id])
            && OrderRows(rows, orders - (left - {id}))
               == before[id := if id in before then Upserted(before[id], orders[id]) else orders[id]]
  {
    hide Upserted;
    assert orders - (left - {id}) == (orders - left)[id := orders[id]];
    OneRow(rows, orders - left, id, orders[id]);
  }

  lemma OneRow(rows: map<string, Order>, written: map<string, Order>, id: string, o: Order)
    requires id !in written
    ensures OrderRows(rows, written[id := o])
         == OrderRows(rows, written)[id := if id in rows then Upserted(rows[id], o) else o]
  {
    hide Upserted;
  }

  /** The positions are written anew. */
  method WritePositions(positions: map<Symbol, Position>) returns (rows: map<Symbol, Position>)
    requires WellKept(positions)
    ensures rows == positions
  {
    rows := map[];
    var left := positions.Keys;
    while left != {}
      invariant left <= positions.Keys && rows == positions - left
      decreases |left|
    {
      var s :| s in left;
      left := left - {s};
      rows := rows[positions[s].symbol := positions[s]];
    }
  }

  class Store {
    var files: map<string, File>

    constructor ()
      ensures files == map[]
    {
      files := map[];
    }

    /** Writes a book under its participant's name; nobody else's rows are touched. */
    method Save(hash: string, m: Memory) returns (after: Memory)
      requires Kept(m.state)
      modifies this
      ensures files == old(files)[hash := Saved(if hash in old(files) then old(files)[hash] else NO_ROWS, m)]
      ensures after == AfterSave(m)
    {
      hide Enumerates, InSequence, OrderRows, EventRows;
      var file := if hash in files then files[hash] else NO_ROWS;
      var name := if m.name == "" then file.row.name else m.name;
      var row := Row(name, m.state.cash, m.state.start, m.lastEquity, m.closedOn, m.state.number);
      var positions := WritePositions(m.state.positions);
      var orders := WriteOrders(file.orders, m.state.orders);
      var events := AppendEvents(file.events, m.state.events, m.saved);
      files := files[hash := File(row, positions, orders, events)];
      after := m.(saved := |m.state.events|);
    }

    /** Brings a book up; a participant who is not in the file is told so. */
    method Load(hash: string, roster: string) returns (found: bool, m: Memory)
      requires hash in files ==> Numbered(files[hash].orders)
      ensures found <==> hash in files
      ensures found ==> m == Loaded(files[hash], roster)
    {
      hide Numbered, IsLeast, ByNumber, HalfRead;
      found := hash in files;
      if !found {
        return false, Memory(State(0.0, 0.0, map[], map[], [], [], 0), roster, 0.0, "", 0);
      }
      var file := files[hash];
      var orders: map<string, Order>, order: seq<string>, left := map[], [], file.orders;
      NothingRead(file.orders);
      while left != map[]
        invariant HalfRead(file.orders, orders, order, left)
        decreases |left|
      {
        var id := LeastNumbered(left);
        ReadOne(file.orders, orders, order, left, id);
        order, orders, left := order + [id], orders[id := left[id]], left - {id};
      }
      AllRead(file.orders, orders, order);
      var saved := |file.events|;
      m := Memory(State(file.row.cash, file.row.start, file.positions, orders, order, seq(saved, _ => BLANK), file.row.number),
                  if roster == "" then file.row.name else roster, file.row.lastEquity, file.row.closedOn, saved);
    }
  }

  /** Some rows were read, the least numbers first; these are left. */
  ghost predicate HalfRead(rows: map<string, Order>, orders: map<string, Order>, order: seq<string>, left: map<string, Order>) {
    && Numbered(left) && left.Keys <= rows.Keys && left == rows - orders.Keys && orders == rows - left.Keys
    && order + ByNumber(left) == ByNumber(rows)
  }

  lemma NothingRead(rows: map<string, Order>)
    requires Numbered(rows)
    ensures HalfRead(rows, map[], [], rows)
  {
    assert [] + ByNumber(rows) == ByNumber(rows);
  }

  lemma ReadOne(rows: map<string, Order>, orders: map<string, Order>, order: seq<string>, left: map<string, Order>, id: string)
    requires HalfRead(rows, orders, order, left) && IsLeast(left, id)
    ensures id in left && HalfRead(rows, orders[id := left[id]], order + [id], left - {id})
  {
    hide Numbered, ByNumber, IsLeast;
    LeastIsUnique(left, id);
    assert order + [id] + ByNumber(left - {id}) == order + ([id] + ByNumber(left - {id}));
  }

  lemma AllRead(rows: map<string, Order>, orders: map<string, Order>, order: seq<string>)
    requires HalfRead(rows, orders, order, map[])
    ensures orders == rows && order == ByNumber(rows)
  {
    assert order + [] == order;
  }
}
