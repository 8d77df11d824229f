/** Expiry settlement: what one settlement does to the account's value, and why an account
    the collateral check let through cannot end below zero. */
module Expiry {
  import opened Payoff
  import opened Contracts
  import opened Sums
  import opened Risk
  import opened Ledger
  import opened Account
  import opened Reserves
  import opened Accounting
  import Reservation

  /** A price in whole cents. */
  predicate InWholeCents(price: real) {
    (price * 100.0).Floor as real == price * 100.0
  }

  /** At prices in cents and with strikes in cents, what is settled is not rounded. */
  ghost predicate OnTheGrid(m: map<Symbol, Position>, prices: Prices) {
    forall s :: s in m && s.Option? ==> InWholeCents(s.contract.strike) && InWholeCents(prices(s.contract.series))
  }

  lemma WholeCentsSubtract(a: real, b: real)
    requires InWholeCents(a) && InWholeCents(b)
    ensures InWholeCents(a - b)
  {
    var m, n := (a * 100.0).Floor, (b * 100.0).Floor;
    assert (a - b) * 100.0 == (m - n) as real;
  }

  lemma NothingIsRounded(c: Contract, under: real)
    requires InWholeCents(c.strike) && InWholeCents(under)
    ensures InCents(c, under) == WorthAt(c, under)
    ensures InCents(c, under) < 0.01 <==> WorthAt(c, under) == 0.0
  {
    WholeCentsSubtract(c.strike, under);
    WholeCentsSubtract(under, c.strike);
    var x := WorthAt(c, under) * 100.0;
    assert x.Floor as real == x;
    assert (x + 0.5).Floor == x.Floor;
  }

  /** Whether a contract turns into shares at this price. */
  predicate Delivers(c: Contract, under: real) {
    InCents(c, under) >= 0.01 && c.series.root !in CASH_SETTLED
  }

  function QtyAt(m: map<Symbol, Position>, s: Symbol): int {
    if s in m then m[s].qty else 0
  }

  /** The shares one settlement brings (or takes). */
  function SharesFor(s: State, symbol: Symbol, under: real): int {
    if symbol in s.positions && symbol.Option? && Delivers(symbol.contract, under)
    then Delivered(symbol.contract, s.positions[symbol].qty) else 0
  }

  /** What a position counts for, if only options count. */
  ghost predicate OptionsCount(f: Position -> real) {
    forall p :: !IsOption(p) ==> f(p) == 0.0
  }

  lemma SharesAddNothing(m: map<Symbol, Position>, s: Symbol, signed: int, price: real, mark: real, f: Position -> real)
    requires WellKept(m) && s.Ticker? && OptionsCount(f)
    ensures MapSum(Repriced(MovedBy(m, s, UsEquity, signed, price), s, mark), f) == MapSum(m, f)
  {
    hide Average;
    var moved := MovedBy(m, s, UsEquity, signed, price);
    Irrelevant(m, moved, s, f);
    Irrelevant(moved, Repriced(moved, s, mark), s, f);
  }

  /** Maps that differ at a share position only. */
  lemma Irrelevant(m: map<Symbol, Position>, m': map<Symbol, Position>, s: Symbol, f: Position -> real)
    requires m - {s} == m' - {s} && OptionsCount(f)
    requires s in m ==> !IsOption(m[s])
    requires s in m' ==> !IsOption(m'[s])
    ensures MapSum(m, f) == MapSum(m', f)
  {
    if s in m { MapSumRemove(m, s, f); } else { assert m - {s} == m; }
    if s in m' { MapSumRemove(m', s, f); } else { assert m' - {s} == m'; }
  }

  // ---------- rounding ----------

  lemma CentsAreClose(c: Contract, under: real)
    ensures -0.005 <= InCents(c, under) - WorthAt(c, under) <= 0.005
    ensures InCents(c, under) < 0.01 ==> InCents(c, under) == 0.0
    ensures InCents(c, under) >= 0.01 ==> WorthAt(c, under) > 0.0
  {
    var x := WorthAt(c, under) * 100.0;
    var n := (x + 0.5).Floor;
    assert x >= 0.0 && n as real <= x + 0.5 < n as real + 1.0;
  }

  /** How far rounding may move what one position is settled for: half a dollar a contract,
      and nothing at a price and a strike in whole cents. */
  function Allowance(c: Contract, qty: int, under: real): real {
    if InWholeCents(c.strike) && InWholeCents(under) then 0.0 else 0.5 * Abs(qty)
  }

  function AllowanceAt(m: map<Symbol, Position>, symbol: Symbol, under: real): real {
    if symbol in m && symbol.Option? then Allowance(symbol.contract, m[symbol].qty, under) else 0.0
  }

  /** And so for a whole account, at these prices. */
  ghost function Allowances(prices: Prices): Position -> real {
    p => if IsOption(p) then Allowance(p.symbol.contract, p.qty, prices(p.symbol.contract.series)) else 0.0
  }

  /** Equal, but for what rounding may do. */
  predicate Within(x: real, y: real, allowance: real) {
    -allowance <= x - y <= allowance
  }

  lemma AllowanceIsNotNegative(c: Contract, qty: int, under: real)
    ensures Allowance(c, qty, under) >= 0.0
  {
    hide InWholeCents;
  }

  lemma OneAllowance(p: Position, prices: Prices)
    ensures Allowances(prices)(p) >= 0.0
    ensures (IsOption(p) ==> InWholeCents(p.symbol.contract.strike) && InWholeCents(prices(p.symbol.contract.series))) ==>
              Allowances(prices)(p) == 0.0
  {
    hide InWholeCents;
    if IsOption(p) {
      AllowanceIsNotNegative(p.symbol.contract, p.qty, prices(p.symbol.contract.series));
    }
  }

  lemma {:induction false} NothingIsAllowedOnTheGrid(m: map<Symbol, Position>, prices: Prices)
    requires WellKept(m)
    ensures MapSum(m, Allowances(prices)) >= 0.0
    ensures OnTheGrid(m, prices) ==> MapSum(m, Allowances(prices)) == 0.0
    decreases |m|
  {
    hide InWholeCents, Allowance, Allowances;
    if m == map[] {
    } else {
      var s :| s in m;
      OneAllowance(m[s], prices);
      MapSumRemove(m, s, Allowances(prices));
      NothingIsAllowedOnTheGrid(m - {s}, prices);
    }
  }

  /** What a contract that does not deliver pays: cash, or nothing below a cent. */
  function Pays(c: Contract, qty: int, under: real): real {
    if InCents(c, under) < 0.01 then 0.0 else InCash(InCents(c, under), qty)
  }

  /** A contract that delivers is worth exactly the shares at the price, less the strike. */
  lemma DeliveryIsFair(c: Contract, qty: int, under: real)
    requires Delivers(c, under)
    ensures Times(Delivered(c, qty) as real, under) + Paid(c, qty) == LegValue(Leg(c.call, c.strike, qty as real), under)
  {
    CentsAreClose(c, under);
    hide InCents;
    var k: real := c.strike;
    SharesLessStrike(qty, k, under);
  }

  /** One that does not deliver pays what it is worth, but for the rounding. */
  lemma PaymentIsFair(c: Contract, qty: int, under: real)
    requires !Delivers(c, under)
    ensures Within(Pays(c, qty, under), LegValue(Leg(c.call, c.strike, qty as real), under), Allowance(c, qty, under))
  {
    hide InWholeCents, InCents, Intrinsic, InCash;
    CentsAreClose(c, under);
    Shifted(InCents(c, under), WorthAt(c, under), qty);
    if InWholeCents(c.strike) && InWholeCents(under) {
      NothingIsRounded(c, under);
    }
    CashIsTheLeg(c, qty, under);
  }

  /** And rounding can take all of that: an index call sold, half a cent in the money. */
  lemma HalfADollarIsTaken()
    ensures exists c, qty, under :: !Delivers(c, under) && Abs(qty) == 1.0 &&
              Pays(c, qty, under) == LegValue(Leg(c.call, c.strike, qty as real), under) - 0.5
  {
    var c, under := Contract(Series("SPX", 0), true, 100.0), 100.005;
    assert WorthAt(c, under) * 100.0 == 0.5 && (0.5 + 0.5).Floor == 1;
    assert InCents(c, under) == 0.01 && !Delivers(c, under) && Abs(-1) == 1.0;
    assert Pays(c, -1, under) == LegValue(Leg(true, 100.0, -1.0), under) - 0.5;
  }

  lemma CashIsTheLeg(c: Contract, qty: int, under: real)
    ensures InCash(WorthAt(c, under), qty) == LegValue(Leg(c.call, c.strike, qty as real), under)
  {
    hide Intrinsic;
    Reorder(WorthAt(c, under), qty as real);
  }

  lemma Reorder(x: real, q: real)
    ensures x * q * 100.0 == q * 100.0 * x
  {
  }

  lemma SharesLessStrike(qty: int, strike: real, under: real)
    ensures (qty * 100) as real * under - strike * qty as real * 100.0 == qty as real * 100.0 * (under - strike)
    ensures (-(qty * 100)) as real * under + strike * qty as real * 100.0 == qty as real * 100.0 * (strike - under)
  {
  }

  lemma Shifted(value: real, worth: real, qty: int)
    requires -0.005 <= value - worth <= 0.005
    ensures InCash(0.0, qty) == 0.0
    ensures Within(InCash(value, qty), InCash(worth, qty), 0.5 * Abs(qty))
  {
    var d := value - worth;
    assert InCash(value, qty) - InCash(worth, qty) == d * qty as real * 100.0;
    ProductOfNonNegatives(0.005 - d, Abs(qty));
    ProductOfNonNegatives(0.005 + d, Abs(qty));
  }

  // ---------- one settlement ----------

  /** Settling one position moves no value but what rounding takes or gives: what leaves the
      options comes as cash, or as shares at the settlement price against the strike. */
  lemma SettlementConserves(s: State, symbol: Symbol, prices: Prices, now: Time)
    requires WellKept(s.positions) && symbol.Option?
    ensures var under := prices(symbol.contract.series);
            var t := Settled(s, symbol, under, now);
            && Within(t.cash + HeldWorth(t.positions)(prices) + Times(SharesFor(s, symbol, under) as real, under),
                      s.cash + HeldWorth(s.positions)(prices), AllowanceAt(s.positions, symbol, under))
            && MapSum(t.positions, Allowances(prices)) ==
               MapSum(s.positions, Allowances(prices)) - AllowanceAt(s.positions, symbol, under)
  {
    ZeroTimes(prices(symbol.contract.series));
    if symbol in s.positions {
      hide InCents, MovedBy, Repriced, Paid, Delivered, LegValue, InWholeCents, Times, InCash, Allowance;
      var c, qty := symbol.contract, s.positions[symbol].qty;
      var under, rest := prices(c.series), s.positions - {symbol};
      if Delivers(c, under) {
        DeliveryIsFair(c, qty, under);
      } else {
        PaymentIsFair(c, qty, under);
      }
      MapSumRemove(s.positions, symbol, At(prices));
      MapSumRemove(s.positions, symbol, Allowances(prices));
      assert At(prices)(s.positions[symbol]) == LegValue(Leg(c.call, c.strike, qty as real), under);
      SharesAddNothing(rest, Ticker(c.series.root), Delivered(c, qty), c.strike, under, At(prices));
      SharesAddNothing(rest, Ticker(c.series.root), Delivered(c, qty), c.strike, under, Allowances(prices));
    }
  }

  lemma MovedQtyIs(m: map<Symbol, Position>, s: Symbol, kind: Kind, signed: int, price: real, mark: real, other: Symbol)
    ensures QtyAt(Repriced(MovedBy(m, s, kind, signed, price), s, mark), other)
         == QtyAt(m, other) + if other == s then signed else 0
  {
    hide Average;
  }

  /** And moves no share but those. */
  lemma SettlementMovesShares(s: State, symbol: Symbol, under: real, now: Time, root: string)
    ensures QtyAt(Settled(s, symbol, under, now).positions, Ticker(root))
         == QtyAt(s.positions, Ticker(root))
          + if symbol.Option? && symbol.contract.series.root == root then SharesFor(s, symbol, under) else 0
  {
    if symbol in s.positions && symbol.Option? {
      hide InCents, MovedBy, Repriced;
      var c := symbol.contract;
      MovedQtyIs(s.positions - {symbol}, Ticker(c.series.root), UsEquity, Delivered(c, s.positions[symbol].qty), c.strike,
                 under, Ticker(root));
    }
  }

  /** The position is gone, and no other option is touched. */
  lemma SettlementClearsOne(s: State, symbol: Symbol, under: real, now: Time)
    requires symbol.Option?
    ensures var t := Settled(s, symbol, under, now);
            forall k: Symbol :: k.Option? ==> (k in t.positions <==> k in s.positions && k != symbol)
  {
    hide InCents, Average;
  }

  // ---------- settling everything ----------

  /** Settlement of the positions named, one after another, at one price per series. */
  function SettledAll(s: State, symbols: seq<Symbol>, prices: Prices, now: Time): State {
    if symbols == [] then s
    else
      var last := symbols[|symbols| - 1];
      var before := SettledAll(s, symbols[..|symbols| - 1], prices, now);
      if last.Option? then Settled(before, last, prices(last.contract.series), now) else before
  }

  /** What all the shares delivered on the way are worth, each at its settlement price. */
  function ShareWorth(s: State, symbols: seq<Symbol>, prices: Prices, now: Time): real {
    if symbols == [] then 0.0
    else
      var last := symbols[|symbols| - 1];
      var before := SettledAll(s, symbols[..|symbols| - 1], prices, now);
      ShareWorth(s, symbols[..|symbols| - 1], prices, now)
      + if last.Option? then Times(SharesFor(before, last, prices(last.contract.series)) as real, prices(last.contract.series)) else 0.0
  }

  /** How many shares of a root were delivered on the way. */
  function SharesOf(s: State, symbols: seq<Symbol>, prices: Prices, now: Time, root: string): int {
    if symbols == [] then 0
    else
      var last := symbols[|symbols| - 1];
      var before := SettledAll(s, symbols[..|symbols| - 1], prices, now);
      SharesOf(s, symbols[..|symbols| - 1], prices, now, root)
      + if last.Option? && last.contract.series.root == root then SharesFor(before, last, prices(last.contract.series)) else 0
  }

  /** In any order, all together move no more value than rounding allows for the positions
      settled, and none at all on the grid. */
  lemma {:induction false} SettlingAllConserves(s: State, symbols: seq<Symbol>, prices: Prices, now: Time)
    requires WellKept(s.positions)
    ensures var t := SettledAll(s, symbols, prices, now);
            && WellKept(t.positions)
            && (forall k: Symbol :: k.Option? ==> (k in t.positions <==> k in s.positions && k !in symbols))
            && Within(t.cash + HeldWorth(t.positions)(prices) + ShareWorth(s, symbols, prices, now),
                      s.cash + HeldWorth(s.positions)(prices),
                      MapSum(s.positions, Allowances(prices)) - MapSum(t.positions, Allowances(prices)))
  {
    hide Settled, WellKept, HeldWorth, SharesFor, Times, AllowanceAt, Allowances;
    if symbols == [] {
    } else {
      var init, last := symbols[..|symbols| - 1], symbols[|symbols| - 1];
      var before := SettledAll(s, init, prices, now);
      SettlingAllConserves(s, init, prices, now);
      assert forall k :: k in symbols <==> k in init || k == last;
      if last.Option? {
        var under := prices(last.contract.series);
        SettlementConserves(before, last, prices, now);
        SettlementClearsOne(before, last, under, now);
        SettledKeeps(before, last, under, now);
      }
    }
  }

  /** The shares held at the end are those delivered on the way. */
  lemma {:induction false} SharesHeldWereDelivered(s: State, symbols: seq<Symbol>, prices: Prices, now: Time, root: string)
    ensures QtyAt(SettledAll(s, symbols, prices, now).positions, Ticker(root))
         == QtyAt(s.positions, Ticker(root)) + SharesOf(s, symbols, prices, now, root)
  {
    hide Settled, SharesFor, QtyAt;
    if symbols == [] {
    } else {
      var init, last := symbols[..|symbols| - 1], symbols[|symbols| - 1];
      SharesHeldWereDelivered(s, init, prices, now, root);
      if last.Option? {
        SettlementMovesShares(SettledAll(s, init, prices, now), last, prices(last.contract.series), now, root);
      }
    }
  }

  lemma {:induction false} NoOptionsAreWorthNothing(m: map<Symbol, Position>, prices: Prices)
    requires WellKept(m) && forall s :: s in m ==> s.Ticker?
    ensures HeldWorth(m)(prices) == 0.0
    decreases |m|
  {
    if m == map[] {
    } else {
      var s :| s in m;
      MapSumRemove(m, s, At(prices));
      NoOptionsAreWorthNothing(m - {s}, prices);
    }
  }

  lemma {:induction false} OptionsNeedNoMargin(m: map<Symbol, Position>)
    requires WellKept(m) && OptionsOnly(m)
    ensures Margined(m) == 0.0
    decreases |m|
  {
    if m == map[] {
    } else {
      var s :| s in m;
      MapSumRemove(m, s, Margins());
      OptionsNeedNoMargin(m - {s});
    }
  }

  /** End-to-end solvency. Open an account, trade it in any way at all, then let every
      position expire, in any order, at one price per underlying and day: what is left in
      cash, with the shares delivered at the prices they came at, is never negative - but for
      half a dollar on each contract whose price or strike is not in whole cents; no option is
      left; and the shares held are those delivered. */
  lemma Solvency(start: real, ops: seq<Op>, symbols: seq<Symbol>, prices: Prices, now: Time)
    requires start >= 0.0 && forall i :: 0 <= i < |ops| ==> Trades(ops[i])
    requires NonNegative(prices)
    requires forall s :: s in Run(Opened(start), ops).positions ==> s in symbols
    ensures var s := Run(Opened(start), ops);
            var t := SettledAll(s, symbols, prices, now);
            && t.cash + ShareWorth(s, symbols, prices, now) >= -MapSum(s.positions, Allowances(prices))
            && (OnTheGrid(s.positions, prices) ==> t.cash + ShareWorth(s, symbols, prices, now) >= 0.0)
            && (forall k :: k in t.positions ==> k.Ticker?)
            && forall root :: QtyAt(t.positions, Ticker(root)) == SharesOf(s, symbols, prices, now, root)
  {
    hide *;
    var s := Traded(start, ops, prices);
    SettlingAllConserves(s, symbols, prices, now);
    NothingIsAllowedOnTheGrid(s.positions, prices);
    var t := SettledAll(s, symbols, prices, now);
    NothingIsAllowedOnTheGrid(t.positions, prices);
    forall k | k in t.positions ensures k.Ticker? {
    }
    NoOptionsAreWorthNothing(t.positions, prices);
    WithinIsClose(t.cash + HeldWorth(t.positions)(prices) + ShareWorth(s, symbols, prices, now),
                  s.cash + HeldWorth(s.positions)(prices),
                  MapSum(s.positions, Allowances(prices)) - MapSum(t.positions, Allowances(prices)));
    forall root ensures QtyAt(t.positions, Ticker(root)) == SharesOf(s, symbols, prices, now, root) {
      SharesHeldWereDelivered(s, symbols, prices, now, root);
      NoShares(s, root);
    }
  }

  /** An account traded in any way holds options only, whose worth at any prices its cash covers. */
  lemma Traded(start: real, ops: seq<Op>, prices: Prices) returns (s: State)
    requires start >= 0.0 && (forall i :: 0 <= i < |ops| ==> Trades(ops[i])) && NonNegative(prices)
    ensures s == Run(Opened(start), ops) && WellKept(s.positions) && OptionsOnly(s.positions)
    ensures s.cash + HeldWorth(s.positions)(prices) >= 0.0
  {
    hide Run, HeldWorth;
    s := Run(Opened(start), ops);
    NewAccountIsReserved(start);
    EveryTradingRunIsCovered(Opened(start), ops);
    EveryRunIsKept(start, ops);
    RunBalances(start, ops);
    OptionsNeedNoMargin(s.positions);
  }

  lemma WithinIsClose(x: real, y: real, allowance: real)
    requires Within(x, y, allowance)
    ensures y - allowance <= x <= y + allowance
  {
  }

  lemma NoShares(s: State, root: string)
    requires OptionsOnly(s.positions)
    ensures QtyAt(s.positions, Ticker(root)) == 0
  {
  }

  // ---------- one price per underlying ----------

  /** What shares are worth, at one price for each underlying. */
  ghost function ShareValue(spot: string -> real): Position -> real {
    (p: Position) => if p.kind.UsEquity? && p.symbol.Ticker? then Times(p.qty as real, spot(p.symbol.word)) else 0.0
  }

  lemma SharesMoved(m: map<Symbol, Position>, s: Symbol, signed: int, price: real, mark: real, spot: string -> real)
    requires WellKept(m) && s.Ticker?
    ensures MapSum(Repriced(MovedBy(m, s, UsEquity, signed, price), s, mark), ShareValue(spot))
         == MapSum(m, ShareValue(spot)) + Times(signed as real, spot(s.word))
  {
    hide Average, Times;
    var m' := Repriced(MovedBy(m, s, UsEquity, signed, price), s, mark);
    assert m' - {s} == m - {s};
    if s in m { MapSumRemove(m, s, ShareValue(spot)); } else { assert m - {s} == m; }
    if s in m' { MapSumRemove(m', s, ShareValue(spot)); } else { assert m' - {s} == m'; }
    SplitTimes(QtyAt(m, s), signed, spot(s.word));
    ZeroTimes(spot(s.word));
  }

  lemma SettlementBringsShares(s: State, symbol: Symbol, spot: string -> real, now: Time)
    requires WellKept(s.positions) && symbol.Option?
    ensures var under := spot(symbol.contract.series.root);
            MapSum(Settled(s, symbol, under, now).positions, ShareValue(spot))
            == MapSum(s.positions, ShareValue(spot)) + Times(SharesFor(s, symbol, under) as real, under)
  {
    ZeroTimes(spot(symbol.contract.series.root));
    if symbol in s.positions {
      hide InCents, MovedBy, Repriced, Paid, Delivered, Times, InCash;
      var c, qty := symbol.contract, s.positions[symbol].qty;
      MapSumRemove(s.positions, symbol, ShareValue(spot));
      SharesMoved(s.positions - {symbol}, Ticker(c.series.root), Delivered(c, qty), c.strike, spot(c.series.root), spot);
    }
  }

  lemma {:induction false} SharesAddUp(s: State, symbols: seq<Symbol>, prices: Prices, spot: string -> real, now: Time)
    requires WellKept(s.positions) && forall k :: prices(k) == spot(k.root)
    ensures WellKept(SettledAll(s, symbols, prices, now).positions)
    ensures MapSum(SettledAll(s, symbols, prices, now).positions, ShareValue(spot))
         == MapSum(s.positions, ShareValue(spot)) + ShareWorth(s, symbols, prices, now)
  {
    hide Settled, WellKept, SharesFor, Times;
    if symbols == [] {
    } else {
      var init, last := symbols[..|symbols| - 1], symbols[|symbols| - 1];
      SharesAddUp(s, init, prices, spot, now);
      if last.Option? {
        SettlementBringsShares(SettledAll(s, init, prices, now), last, spot, now);
        SettledKeeps(SettledAll(s, init, prices, now), last, prices(last.contract.series), now);
      }
    }
  }

  lemma {:induction false} NoSharesAreWorthNothing(m: map<Symbol, Position>, spot: string -> real)
    requires WellKept(m) && OptionsOnly(m)
    ensures MapSum(m, ShareValue(spot)) == 0.0
    decreases |m|
  {
    if m == map[] {
    } else {
      var s :| s in m;
      MapSumRemove(m, s, ShareValue(spot));
      NoSharesAreWorthNothing(m - {s}, spot);
    }
  }

  /** When every series of an underlying settles at the underlying's one price, the account
      at the end, cash and the shares it then holds at that price, is not below zero, but for
      the same half dollars. */
  lemma SolvencyAtOnePrice(start: real, ops: seq<Op>, symbols: seq<Symbol>, spot: string -> real, prices: Prices, now: Time)
    requires start >= 0.0 && forall i :: 0 <= i < |ops| ==> Trades(ops[i])
    requires NonNegative(prices) && (forall k :: prices(k) == spot(k.root))
    requires forall s :: s in Run(Opened(start), ops).positions ==> s in symbols
    ensures var s := Run(Opened(start), ops);
            var t := SettledAll(s, symbols, prices, now);
            && t.cash + MapSum(t.positions, ShareValue(spot)) >= -MapSum(s.positions, Allowances(prices))
            && (OnTheGrid(s.positions, prices) ==> t.cash + MapSum(t.positions, ShareValue(spot)) >= 0.0)
  {
    Solvency(start, ops, symbols, prices, now);
    EveryRunIsKept(start, ops);
    RunBalances(start, ops);
    NoSharesAreWorthNothing(Run(Opened(start), ops).positions, spot);
    SharesAddUp(Run(Opened(start), ops), symbols, prices, spot, now);
  }

  // ---------- trading between settlements ----------

  /** What the account is worth: cash, options at these prices, and shares at the spot. */
  ghost function AccountWorth(s: State, prices: Prices, spot: string -> real): real {
    s.cash + HeldWorth(s.positions)(prices) + MapSum(s.positions, ShareValue(spot))
  }

  /** Shares are marked at the spot, and were entered at prices. */
  ghost predicate SharesAtSpot(m: map<Symbol, Position>, spot: string -> real) {
    forall s :: s in m && s.Ticker? ==> m[s].mark == spot(s.word) && m[s].avgPrice >= 0.0
  }

  /** An operation of a time in which each underlying has one price: trading is free, what
      settles does so at that price, and shares are marked at it. */
  ghost predicate AtTheSpot(op: Op, spot: string -> real) {
    match op
    case Settle(symbol, under, _) => symbol.Option? ==> under == spot(symbol.contract.series.root)
    case SetMarks(marks) => forall s :: s in marks && s.Ticker? ==> marks[s] == spot(s.word)
    case _ => true
  }

  ghost predicate OneSpot(prices: Prices, spot: string -> real) {
    NonNegative(prices) && (forall word :: spot(word) >= 0.0) && forall k :: prices(k) == spot(k.root)
  }

  lemma {:induction false} AppliedLeavesShares(m: map<Symbol, Position>, legs: seq<SetLeg>, sets: int, marks: map<Symbol, real>)
    ensures var m' := Applied(m, legs, sets, marks);
            forall s: Symbol :: s.Ticker? ==> (s in m' <==> s in m) && (s in m ==> m'[s] == m[s])
  {
    hide Average;
    if legs == [] {
    } else {
      AppliedLeavesShares(m, legs[..|legs| - 1], sets, marks);
    }
  }

  /** Half as much again as short shares cost outweighs what buying them back takes. */
  lemma MarginOutweighsShares(m: map<Symbol, Position>, spot: string -> real)
    requires WellKept(m) && SharesAtSpot(m, spot) && forall word :: spot(word) >= 0.0
    ensures Margined(m) + MapSum(m, ShareValue(spot)) >= 0.0
  {
    forall s | s in m ensures Margins()(m[s]) + ShareValue(spot)(m[s]) >= 0.0 {
      if s.Ticker? {
        ShortSharesOutweighed(m[s], spot(s.word));
      }
    }
    MapSumsOutweigh(m, Margins(), ShareValue(spot));
  }

  lemma ShortSharesOutweighed(p: Position, price: real)
    requires p.kind.UsEquity? && p.mark == price && price >= 0.0 && p.avgPrice >= 0.0
    ensures Margin(p) + Times(p.qty as real, price) >= 0.0
  {
    if p.qty >= 0 {
      ProductOfNonNegatives(p.qty as real, price);
    } else {
      var short := (-p.qty) as real;
      ProductOfNonNegatives(short, price);
      ProductOfNonNegatives(short, p.avgPrice);
      assert Times(p.qty as real, price) == -(short * price);
    }
  }

  lemma CoveredIsSolvent(s: State, prices: Prices, spot: string -> real)
    requires OneSpot(prices, spot) && WellKept(s.positions) && SharesAtSpot(s.positions, spot)
    requires Covered(s.cash, s.positions)
    ensures AccountWorth(s, prices, spot) >= 0.0
  {
    hide SharesAtSpot, WellKept, HeldWorth, Margined;
    MarginOutweighsShares(s.positions, spot);
  }

  lemma BlendedIsAPrice(average: real, was: int, price: real, signed: int)
    requires average >= 0.0 && price >= 0.0
    ensures Average(was, average, signed, price) >= 0.0
  {
    if was + signed != 0 {
      ProductOfNonNegatives(average, Abs(was));
      ProductOfNonNegatives(price, Abs(signed));
      NoNegativeQuotient(average * Abs(was) + price * Abs(signed), Abs(was + signed));
    }
  }

  lemma NoNegativeQuotient(x: real, y: real)
    requires x >= 0.0 && y > 0.0
    ensures x / y >= 0.0
  {
  }

  lemma SettlementKeepsSpot(s: State, symbol: Symbol, under: real, now: Time, spot: string -> real)
    requires SharesAtSpot(s.positions, spot) && symbol.Option? && under == spot(symbol.contract.series.root)
    ensures SharesAtSpot(Settled(s, symbol, under, now).positions, spot)
  {
    if symbol in s.positions {
      hide InCents, Average, Paid, InCash;
      var c, qty := symbol.contract, s.positions[symbol].qty;
      var root, rest := Ticker(c.series.root), s.positions - {symbol};
      var p := if root in rest then rest[root] else Position(root, 0, 0.0, UsEquity, 0.0);
      BlendedIsAPrice(p.avgPrice, p.qty, c.strike, Delivered(c, qty));
    }
  }

  /** What rounding may do in one operation. */
  function AllowanceOf(s: State, op: Op): real {
    match op
    case Settle(symbol, under, _) => AllowanceAt(s.positions, symbol, under)
    case _ => 0.0
  }

  lemma SettlementKeepsWorth(s: State, symbol: Symbol, under: real, now: Time, prices: Prices, spot: string -> real)
    requires WellKept(s.positions) && OneSpot(prices, spot) && AtTheSpot(Settle(symbol, under, now), spot)
    ensures Within(AccountWorth(Settled(s, symbol, under, now), prices, spot), AccountWorth(s, prices, spot),
                   AllowanceAt(s.positions, symbol, under))
  {
    hide Settled, WellKept, SharesFor, Times, HeldWorth, ShareValue, Allowance;
    if symbol.Option? {
      SettlementConserves(s, symbol, prices, now);
      SettlementBringsShares(s, symbol, spot, now);
    } else {
      NothingToSettle(s, symbol, under, now);
    }
  }

  lemma NothingToSettle(s: State, symbol: Symbol, under: real, now: Time)
    requires symbol.Ticker?
    ensures Settled(s, symbol, under, now) == s
  {
  }

  lemma MarksAreWorthNothing(s: State, marks: map<Symbol, real>, prices: Prices, spot: string -> real)
    ensures AccountWorth(AllMarked(s, marks), prices, spot) == AccountWorth(s, prices, spot)
  {
    MapSumAlike(s.positions, AllMarked(s, marks).positions, At(prices));
    MapSumAlike(s.positions, AllMarked(s, marks).positions, ShareValue(spot));
  }

  /** What the account keeps through trading and settlement alike: it owes no more than
      rounding has taken. */
  ghost predicate Solvent(s: State, prices: Prices, spot: string -> real, rounded: real) {
    SharesAtSpot(s.positions, spot) && rounded >= 0.0 && AccountWorth(s, prices, spot) >= -rounded
  }

  lemma FillKeepsSolvent(s: State, id: string, sets: int, price: real, marks: map<Symbol, real>, now: Time, prices: Prices,
                         spot: string -> real, rounded: real)
    requires Kept(s) && OneSpot(prices, spot) && Solvent(s, prices, spot, rounded)
    requires Fillable(s, id, sets) && s.orders[id].filledQty >= 0
    ensures Solvent(AfterFill(s, id, sets, price, marks, now), prices, spot, rounded)
  {
    hide Covered, Enumerates, InSequence, Applied, FilledBy, WellKept, HeldWorth, OneSpot, ShareValue;
    var t := Booked(s, id, sets, price, marks, now);
    if Covered(t.cash, t.positions) {
      AppliedKeeps(s.positions, s.orders[id].legs, sets, marks);
      AppliedLeavesShares(s.positions, s.orders[id].legs, sets, marks);
      CoveredIsSolvent(t, prices, spot);
    }
  }

  lemma StepKeepsSolvent(s: State, op: Op, prices: Prices, spot: string -> real, rounded: real)
    requires Kept(s) && OneSpot(prices, spot) && Solvent(s, prices, spot, rounded) && AtTheSpot(op, spot)
    ensures Solvent(Step(s, op), prices, spot, rounded + AllowanceOf(s, op))
  {
    hide Reserved, Covered, AfterFill, Settled, AllMarked, HeldWorth, OneSpot, ShareValue, Enumerates, InSequence, InWholeCents;
    match op
    case Fill(id, sets, price, marks, now) =>
      if Fillable(s, id, sets) && s.orders[id].filledQty >= 0 {
        FillKeepsSolvent(s, id, sets, price, marks, now, prices, spot, rounded);
      }
    case Settle(symbol, under, now) =>
      SettlementKeepsWorth(s, symbol, under, now, prices, spot);
      if symbol.Option? {
        SettlementKeepsSpot(s, symbol, under, now, spot);
      } else {
        NothingToSettle(s, symbol, under, now);
      }
    case SetMarks(marks) =>
      MarksAreWorthNothing(s, marks, prices, spot);
      MarksKeepSpot(s, marks, spot);
    case _ =>
  }

  lemma MarksKeepSpot(s: State, marks: map<Symbol, real>, spot: string -> real)
    requires SharesAtSpot(s.positions, spot) && AtTheSpot(SetMarks(marks), spot)
    ensures SharesAtSpot(AllMarked(s, marks).positions, spot)
  {
  }

  lemma OpenedIsSolvent(start: real, prices: Prices, spot: string -> real)
    requires start >= 0.0
    ensures Solvent(Opened(start), prices, spot, 0.0)
  {
    var s := Opened(start);
    assert HeldWorth(s.positions)(prices) == 0.0;
    assert MapSum(s.positions, ShareValue(spot)) == 0.0;
  }

  /** What rounding may have taken in a run: half a dollar on every contract settled at a
      price, or with a strike, not in whole cents. */
  ghost function Rounded(start: real, ops: seq<Op>): real {
    if ops == [] then 0.0
    else Rounded(start, ops[..|ops| - 1]) + AllowanceOf(Run(Opened(start), ops[..|ops| - 1]), ops[|ops| - 1])
  }

  /** Every settlement of the run is at a price and of a strike in whole cents. */
  predicate InWholeCentsOnly(ops: seq<Op>) {
    forall i :: 0 <= i < |ops| && ops[i].Settle? && ops[i].symbol.Option? ==>
      InWholeCents(ops[i].under) && InWholeCents(ops[i].symbol.contract.strike)
  }

  lemma {:induction false} WholeCentsTakeNothing(start: real, ops: seq<Op>)
    requires InWholeCentsOnly(ops)
    ensures Rounded(start, ops) == 0.0
  {
    if ops == [] {
    } else {
      hide Run, InWholeCents;
      WholeCentsTakeNothing(start, ops[..|ops| - 1]);
    }
  }

  /** Solvency throughout. At one price for each underlying, cash, options and shares are
      together never worth less than nothing, but for what rounding took, whatever is traded
      between settlements and whatever settles between trades, in any order: expiries may come
      one after another, and the shares they leave may be held while trading goes on. */
  lemma {:induction false} SolventThroughout(start: real, ops: seq<Op>, prices: Prices, spot: string -> real)
    requires start >= 0.0 && OneSpot(prices, spot) && forall i :: 0 <= i < |ops| ==> AtTheSpot(ops[i], spot)
    ensures Solvent(Run(Opened(start), ops), prices, spot, Rounded(start, ops))
    ensures InWholeCentsOnly(ops) ==> AccountWorth(Run(Opened(start), ops), prices, spot) >= 0.0
  {
    if InWholeCentsOnly(ops) {
      WholeCentsTakeNothing(start, ops);
    }
    hide Step, Kept, OneSpot, AtTheSpot, AllowanceOf, AccountWorth, SharesAtSpot, InWholeCentsOnly;
    if ops == [] {
      OpenedIsSolvent(start, prices, spot);
    } else {
      SolventThroughout(start, ops[..|ops| - 1], prices, spot);
      EveryRunIsKept(start, ops[..|ops| - 1]);
      StepKeepsSolvent(Run(Opened(start), ops[..|ops| - 1]), ops[|ops| - 1], prices, spot, Rounded(start, ops[..|ops| - 1]));
    }
  }

  /** And when no option is left, cash and shares alone are not. */
  lemma SolventAtTheEnd(start: real, ops: seq<Op>, prices: Prices, spot: string -> real)
    requires start >= 0.0 && OneSpot(prices, spot) && forall i :: 0 <= i < |ops| ==> AtTheSpot(ops[i], spot)
    requires forall s :: s in Run(Opened(start), ops).positions ==> s.Ticker?
    ensures var s := Run(Opened(start), ops);
            && s.cash + MapSum(s.positions, ShareValue(spot)) >= -Rounded(start, ops)
            && (InWholeCentsOnly(ops) ==> s.cash + MapSum(s.positions, ShareValue(spot)) >= 0.0)
  {
    hide InWholeCentsOnly;
    SolventThroughout(start, ops, prices, spot);
    EveryRunIsKept(start, ops);
    NoOptionsAreWorthNothing(Run(Opened(start), ops).positions, prices);
  }
}
