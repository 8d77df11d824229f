/** The matcher: orders stand until the market reaches them, and the size shown on the book
    is one size for everyone. */
module Match {
  import opened Contracts
  import opened Ledger
  import opened Account
  import B = Book
  import Reserves

  datatype Quote = Quote(bid: real, ask: real, bidSize: nat, askSize: nat, at: Time)

  /** A side of one contract's book. */
  datatype Key = Key(contract: Contract, side: Side)

  type Quotes = map<Contract, Quote>

  /** What is left of the shown sizes in this tick. */
  type Shown = map<Key, int>

  /** The instant of the tick, how old a quote may be, and whether age is looked at. */
  datatype Clock = Clock(now: Time, maxAge: int, ignoreAge: bool)

  datatype Offer = Offer(price: real, sets: nat, legPrices: map<Symbol, real>) | Nothing

  function KeyOf(leg: SetLeg): Key {
    Key(leg.contract, leg.side)
  }

  function PriceAt(q: Quote, side: Side): real {
    if side.Buy? then q.ask else q.bid
  }

  function SizeAt(q: Quote, side: Side): nat {
    if side.Buy? then q.askSize else q.bidSize
  }

  predicate Crossed(q: Quote) {
    q.bid > 0.0 && q.ask > 0.0 && q.bid > q.ask
  }

  /** A leg can be filled: it is quoted, the quote is fresh and not crossed, and the side
      it needs has a price. */
  predicate Usable(leg: SetLeg, quotes: Quotes, clock: Clock) {
    && leg.contract in quotes
    && var q := quotes[leg.contract];
    && (clock.ignoreAge || (q.at != 0 && clock.now - q.at <= clock.maxAge))
    && !Crossed(q) && PriceAt(q, leg.side) > 0.0
  }

  predicate AllUsable(legs: seq<SetLeg>, quotes: Quotes, clock: Clock) {
    forall i :: 0 <= i < |legs| ==> Usable(legs[i], quotes, clock)
  }

  /** What one set costs against the opposite sides of the book. */
  function SetPrice(legs: seq<SetLeg>, quotes: Quotes): real
    requires forall i :: 0 <= i < |legs| ==> legs[i].contract in quotes
  {
    if legs == [] then 0.0
    else
      var last := legs[|legs| - 1];
      var p := PriceAt(quotes[last.contract], last.side) * last.ratio as real;
      SetPrice(legs[..|legs| - 1], quotes) + if last.side.Buy? then p else -p
  }

  /** The price of each leg's contract on the side it is filled against. */
  function LegPrices(legs: seq<SetLeg>, quotes: Quotes): map<Symbol, real>
    requires forall i :: 0 <= i < |legs| ==> legs[i].contract in quotes
  {
    if legs == [] then map[]
    else
      var last := legs[|legs| - 1];
      LegPrices(legs[..|legs| - 1], quotes)[Option(last.contract) := PriceAt(quotes[last.contract], last.side)]
  }

  function LeftOf(leg: SetLeg, quotes: Quotes, shown: Shown): int
    requires leg.contract in quotes
  {
    if KeyOf(leg) in shown then shown[KeyOf(leg)] else SizeAt(quotes[leg.contract], leg.side)
  }

  /** Division towards zero. */
  function Fits(size: int, ratio: Ratio): int {
    if size >= 0 then size / ratio else -(-size / ratio)
  }

  /** How many sets the legs leave room for, each by itself; minus one before any leg. */
  function Counted(legs: seq<SetLeg>, quotes: Quotes, shown: Shown): int
    requires forall i :: 0 <= i < |legs| ==> legs[i].contract in quotes
  {
    if legs == [] then -1
    else
      var last := legs[|legs| - 1];
      var sets := Counted(legs[..|legs| - 1], quotes, shown);
      var fits := Fits(LeftOf(last, quotes, shown), last.ratio);
      if sets < 0 || fits < sets then fits else sets
  }

  function SetsOnBook(legs: seq<SetLeg>, quotes: Quotes, shown: Shown): nat
    requires forall i :: 0 <= i < |legs| ==> legs[i].contract in quotes
  {
    var n := Counted(legs, quotes, shown);
    if n < 0 then 0 else n
  }

  /** The price of one set and how many sets stand there, or nothing when some leg cannot
      be filled. */
  method Executable(legs: seq<SetLeg>, quotes: Quotes, shown: Shown, clock: Clock) returns (offer: Offer)
    ensures offer.Offer? <==> AllUsable(legs, quotes, clock)
    ensures offer.Offer? ==> offer.price == SetPrice(legs, quotes) && offer.sets == SetsOnBook(legs, quotes, shown)
    ensures offer.Offer? ==> offer.legPrices == LegPrices(legs, quotes)
  {
    hide Crossed, Fits;
    var price, sets, legPrices := 0.0, -1, map[];
    for i := 0 to |legs|
      invariant AllUsable(legs[..i], quotes, clock)
      invariant price == SetPrice(legs[..i], quotes) && sets == Counted(legs[..i], quotes, shown)
      invariant legPrices == LegPrices(legs[..i], quotes)
    {
      var leg := legs[i];
      assert legs[..i + 1][..i] == legs[..i];
      if leg.contract !in quotes {
        return Nothing;
      }
      var q := quotes[leg.contract];
      if !clock.ignoreAge {
        if q.at == 0 {
          return Nothing;
        }
        if clock.now - q.at > clock.maxAge {
          return Nothing;
        }
      }
      if Crossed(q) {
        return Nothing;
      }
      var p, size := PriceAt(q, leg.side), SizeAt(q, leg.side) as int;
      if p <= 0.0 {
        return Nothing;
      }
      if KeyOf(leg) in shown {
        size := shown[KeyOf(leg)];
      }
      if leg.side.Buy? {
        price := price + p * leg.ratio as real;
      } else {
        price := price - p * leg.ratio as real;
      }
      legPrices := legPrices[Option(leg.contract) := p];
      var fits := Fits(size, leg.ratio);
      if sets < 0 || fits < sets {
        sets := fits;
      }
    }
    assert legs[..|legs|] == legs;
    if sets < 0 {
      sets := 0;
    }
    offer := Offer(price, sets, legPrices);
  }

  // ---------- a set and its mirror ----------

  function Mirrored(legs: seq<SetLeg>): (mirror: seq<SetLeg>)
    ensures |mirror| == |legs|
    ensures forall i :: 0 <= i < |legs| ==> mirror[i].contract == legs[i].contract
  {
    seq(|legs|, i requires 0 <= i < |legs| => legs[i].(side := if legs[i].side.Buy? then Sell else Buy))
  }

  /** Opening a set and closing it at once never pays: whenever both can be priced, the two
      prices together are not below zero, because crossed quotes are refused. */
  lemma {:induction false} RoundTripNeverPays(legs: seq<SetLeg>, quotes: Quotes, clock: Clock)
    requires AllUsable(legs, quotes, clock) && AllUsable(Mirrored(legs), quotes, clock)
    ensures SetPrice(legs, quotes) + SetPrice(Mirrored(legs), quotes) >= 0.0
  {
    if legs == [] {
    } else {
      var init, last := legs[..|legs| - 1], legs[|legs| - 1];
      assert Mirrored(legs)[..|legs| - 1] == Mirrored(init);
      RoundTripNeverPays(init, quotes, clock);
      assert Usable(last, quotes, clock) && Usable(Mirrored(legs)[|legs| - 1], quotes, clock);
      var q := quotes[last.contract];
      SpreadIsPaid(q.ask, q.bid, last.ratio as real);
    }
  }

  lemma SpreadIsPaid(ask: real, bid: real, n: real)
    requires ask >= bid && n >= 0.0
    ensures ask * n - bid * n >= 0.0
  {
    assert (ask - bid) * n >= 0.0;
  }

  // ---------- how many sets ----------

  /** No contract twice on one side. */
  predicate DistinctLegs(legs: seq<SetLeg>) {
    forall i, j :: 0 <= i < j < |legs| ==> KeyOf(legs[i]) != KeyOf(legs[j])
  }

  predicate SizesAreCounts(legs: seq<SetLeg>, quotes: Quotes, shown: Shown)
    requires forall i :: 0 <= i < |legs| ==> legs[i].contract in quotes
  {
    forall i :: 0 <= i < |legs| ==> LeftOf(legs[i], quotes, shown) >= 0
  }

  lemma FitsIsTheMost(size: int, ratio: Ratio, n: nat)
    requires size >= 0
    ensures n <= Fits(size, ratio) <==> n * ratio <= size
    ensures Fits(size, ratio) >= 0
  {
    var q := size / ratio;
    assert size == q * ratio + size % ratio;
    if n <= q {
      NoMore(n, q, ratio);
    } else {
      NoMore(q + 1, n, ratio);
      assert (q + 1) * ratio == q * ratio + ratio;
    }
  }

  lemma NoMore(a: int, b: int, ratio: nat)
    requires a <= b
    ensures a * ratio <= b * ratio
  {
    assert (b - a) * ratio >= 0;
  }

  /** The sets offered are the most that every leg's remaining size allows. */
  lemma {:induction false} SetsAreTheMost(legs: seq<SetLeg>, quotes: Quotes, shown: Shown, n: nat)
    requires legs != [] && forall i :: 0 <= i < |legs| ==> legs[i].contract in quotes
    requires SizesAreCounts(legs, quotes, shown)
    ensures Counted(legs, quotes, shown) >= 0
    ensures n <= SetsOnBook(legs, quotes, shown) <==>
            forall i :: 0 <= i < |legs| ==> n * legs[i].ratio <= LeftOf(legs[i], quotes, shown)
  {
    hide Fits, LeftOf;
    var init, last := legs[..|legs| - 1], legs[|legs| - 1];
    FitsIsTheMost(LeftOf(last, quotes, shown), last.ratio, n);
    if init == [] {
      assert Counted(init, quotes, shown) == -1;
    } else {
      SetsAreTheMost(init, quotes, shown, n);
    }
  }

  // ---------- one tick ----------

  /** What a book answers a fill with: an error, or nothing said either because the fill
      was booked or because the collateral did not suffice. */
  datatype Reply = Failed | Uncovered | Booked

  datatype Booking = Booking(order: Order, sets: nat, price: real)

  datatype Outcome = Outcome(shown: Shown, bookings: seq<Booking>)

  function ShownAt(shown: Shown, k: Key): int {
    if k in shown then shown[k] else 0
  }

  function Lowered(shown: Shown, legs: seq<SetLeg>, sets: nat): Shown {
    if legs == [] then shown
    else
      var last := legs[|legs| - 1];
      var before := Lowered(shown, legs[..|legs| - 1], sets);
      before[KeyOf(last) := ShownAt(before, KeyOf(last)) - last.ratio * sets]
  }

  /** How many sets of an order are tried in this tick: none when it cannot be priced or
      the market is beyond its limit. */
  function Tried(o: Order, quotes: Quotes, shown: Shown, clock: Clock): nat {
    if !AllUsable(o.legs, quotes, clock) || (!o.market && SetPrice(o.legs, quotes) > o.limit) then 0
    else
      var sets := SetsOnBook(o.legs, quotes, shown);
      if sets > Remaining(o) then (if Remaining(o) < 0 then 0 else Remaining(o)) else sets
  }

  /** One order's turn: whatever its book answers but an error lowers what is shown. */
  function Served(out: Outcome, o: Order, reply: Reply, quotes: Quotes, clock: Clock): Outcome {
    var sets := Tried(o, quotes, out.shown, clock);
    if sets < 1 || reply.Failed? then out
    else
      Outcome(Lowered(out.shown, o.legs, sets),
              if reply.Booked? && AllUsable(o.legs, quotes, clock)
              then out.bookings + [Booking(o, sets, SetPrice(o.legs, quotes))] else out.bookings)
  }

  /** The standing orders of all books, in the order they were submitted, each with what
      its book answers. */
  function Tick(shown: Shown, orders: seq<Order>, replies: seq<Reply>, quotes: Quotes, clock: Clock): Outcome
    requires |orders| == |replies|
  {
    if orders == [] then Outcome(shown, [])
    else
      var n := |orders| - 1;
      Served(Tick(shown, orders[..n], replies[..n], quotes, clock), orders[n], replies[n], quotes, clock)
  }

  /** How many contracts of one side the legs take for so many sets. */
  function TakenBy(legs: seq<SetLeg>, sets: nat, k: Key): nat {
    if legs == [] then 0
    else
      var last := legs[|legs| - 1];
      TakenBy(legs[..|legs| - 1], sets, k) + if KeyOf(last) == k then last.ratio * sets else 0
  }

  function Taken(bookings: seq<Booking>, k: Key): nat {
    if bookings == [] then 0
    else
      var last := bookings[|bookings| - 1];
      Taken(bookings[..|bookings| - 1], k) + TakenBy(last.order.legs, last.sets, k)
  }

  // ---------- honesty ----------

  /** Nothing below zero is left, and what was booked came out of what was shown. */
  ghost predicate Honest(shown: Shown, out: Outcome) {
    forall k :: k in shown ==> k in out.shown && out.shown[k] >= 0 && Taken(out.bookings, k) + out.shown[k] <= shown[k]
  }

  lemma {:induction false} LoweringTakes(shown: Shown, legs: seq<SetLeg>, sets: nat, k: Key)
    ensures ShownAt(Lowered(shown, legs, sets), k) == ShownAt(shown, k) - TakenBy(legs, sets, k)
    ensures k in shown ==> k in Lowered(shown, legs, sets)
  {
    if legs == [] {
    } else {
      LoweringTakes(shown, legs[..|legs| - 1], sets, k);
    }
  }

  lemma {:induction false} TakenOnce(legs: seq<SetLeg>, sets: nat, k: Key)
    requires DistinctLegs(legs)
    ensures TakenBy(legs, sets, k) == 0 || exists i :: 0 <= i < |legs| && KeyOf(legs[i]) == k && TakenBy(legs, sets, k) == legs[i].ratio * sets
    ensures (forall i :: 0 <= i < |legs| ==> KeyOf(legs[i]) != k) ==> TakenBy(legs, sets, k) == 0
  {
    if legs == [] {
    } else {
      var init, last := legs[..|legs| - 1], legs[|legs| - 1];
      TakenOnce(init, sets, k);
      if KeyOf(last) == k {
        assert forall i :: 0 <= i < |init| ==> KeyOf(init[i]) == KeyOf(legs[i]) != k;
        assert KeyOf(legs[|legs| - 1]) == k;
      }
    }
  }

  /** Every side of every quote is in what is shown. */
  ghost predicate Shows(shown: Shown, quotes: Quotes) {
    forall k: Key :: k.contract in quotes ==> k in shown
  }

  /** The sets tried of an order with distinct legs fit in what is left on every side. */
  lemma TriedFits(o: Order, quotes: Quotes, shown: Shown, clock: Clock, k: Key)
    requires DistinctLegs(o.legs) && Shows(shown, quotes) && k in shown && forall j :: j in shown ==> shown[j] >= 0
    ensures TakenBy(o.legs, Tried(o, quotes, shown, clock), k) <= shown[k]
  {
    hide AllUsable, SetPrice, SetsOnBook, TakenBy, Shows, DistinctLegs;
    var sets := Tried(o, quotes, shown, clock);
    TakenOnce(o.legs, sets, k);
    if TakenBy(o.legs, sets, k) != 0 {
      var i :| 0 <= i < |o.legs| && KeyOf(o.legs[i]) == k && TakenBy(o.legs, sets, k) == o.legs[i].ratio * sets;
      if sets > 0 {
        EachLegFits(o, quotes, shown, clock, i);
      }
    }
  }

  lemma EachLegFits(o: Order, quotes: Quotes, shown: Shown, clock: Clock, i: nat)
    requires i < |o.legs| && Tried(o, quotes, shown, clock) > 0
    requires Shows(shown, quotes) && forall j :: j in shown ==> shown[j] >= 0
    ensures KeyOf(o.legs[i]) in shown && Tried(o, quotes, shown, clock) * o.legs[i].ratio <= shown[KeyOf(o.legs[i])]
  {
    hide SetPrice, Counted, Fits, Usable;
    AllOfThemFit(o.legs, quotes, shown, clock, i);
    UsableIsQuoted(o.legs, quotes, clock);
    NoMore(Tried(o, quotes, shown, clock), SetsOnBook(o.legs, quotes, shown), o.legs[i].ratio);
  }

  lemma UsableIsQuoted(legs: seq<SetLeg>, quotes: Quotes, clock: Clock)
    requires AllUsable(legs, quotes, clock)
    ensures forall i :: 0 <= i < |legs| ==> legs[i].contract in quotes
  {
    forall i | 0 <= i < |legs| ensures legs[i].contract in quotes {
      assert Usable(legs[i], quotes, clock);
    }
  }

  lemma AllOfThemFit(legs: seq<SetLeg>, quotes: Quotes, shown: Shown, clock: Clock, i: nat)
    requires i < |legs| && AllUsable(legs, quotes, clock)
    requires Shows(shown, quotes) && forall j :: j in shown ==> shown[j] >= 0
    ensures KeyOf(legs[i]) in shown && SetsOnBook(legs, quotes, shown) * legs[i].ratio <= shown[KeyOf(legs[i])]
  {
    hide SetPrice, Counted, Fits;
    forall j | 0 <= j < |legs| ensures legs[j].contract in quotes && KeyOf(legs[j]) in shown {
      assert Usable(legs[j], quotes, clock);
    }
    SetsAreTheMost(legs, quotes, shown, SetsOnBook(legs, quotes, shown));
  }

  lemma ServedHonestly(shown: Shown, out: Outcome, o: Order, reply: Reply, quotes: Quotes, clock: Clock)
    requires Honest(shown, out) && Shows(shown, quotes) && DistinctLegs(o.legs)
    requires out.shown.Keys == shown.Keys
    ensures Honest(shown, Served(out, o, reply, quotes, clock))
    ensures Served(out, o, reply, quotes, clock).shown.Keys == shown.Keys
  {
    hide Tried, DistinctLegs, AllUsable, SetPrice;
    var sets := Tried(o, quotes, out.shown, clock);
    var t := Served(out, o, reply, quotes, clock);
    forall k | k in shown
      ensures k in t.shown && t.shown[k] >= 0 && Taken(t.bookings, k) + t.shown[k] <= shown[k]
    {
      TriedFits(o, quotes, out.shown, clock, k);
      LoweringTakes(out.shown, o.legs, sets, k);
      if |t.bookings| > |out.bookings| {
        assert t.bookings[..|out.bookings|] == out.bookings;
      }
    }
    if sets >= 1 {
      TriedIsQuoted(o, quotes, out.shown, clock);
      LoweredKeys(out.shown, o.legs, sets);
    }
  }

  lemma TriedIsQuoted(o: Order, quotes: Quotes, shown: Shown, clock: Clock)
    requires Tried(o, quotes, shown, clock) >= 1 && Shows(shown, quotes)
    ensures forall i :: 0 <= i < |o.legs| ==> KeyOf(o.legs[i]) in shown
  {
    forall i | 0 <= i < |o.legs| ensures KeyOf(o.legs[i]) in shown {
      assert Usable(o.legs[i], quotes, clock);
    }
  }

  lemma {:induction false} LoweredKeys(shown: Shown, legs: seq<SetLeg>, sets: nat)
    requires forall i :: 0 <= i < |legs| ==> KeyOf(legs[i]) in shown
    ensures Lowered(shown, legs, sets).Keys == shown.Keys
  {
    if legs == [] {
    } else {
      LoweredKeys(shown, legs[..|legs| - 1], sets);
    }
  }

  /** Liquidity is shared honestly: in one tick, whatever the books answer, what is booked
      on a side of a contract, over all orders of all books together, never exceeds the
      size shown there. */
  lemma {:induction false} NoMoreThanShown(shown: Shown, orders: seq<Order>, replies: seq<Reply>, quotes: Quotes, clock: Clock)
    requires |orders| == |replies| && Shows(shown, quotes) && forall k :: k in shown ==> shown[k] >= 0
    requires forall i :: 0 <= i < |orders| ==> DistinctLegs(orders[i].legs)
    ensures Honest(shown, Tick(shown, orders, replies, quotes, clock))
    ensures Tick(shown, orders, replies, quotes, clock).shown.Keys == shown.Keys
  {
    hide DistinctLegs, Shows;
    if orders == [] {
    } else {
      hide Honest, Served;
      var n := |orders| - 1;
      NoMoreThanShown(shown, orders[..n], replies[..n], quotes, clock);
      ServedHonestly(shown, Tick(shown, orders[..n], replies[..n], quotes, clock), orders[n], replies[n], quotes, clock);
    }
  }

  /** Every limit order is booked at its limit or better, at quotes that are usable, and
      for no more than what remains of it. */
  lemma {:induction false} LimitsAreKept(shown: Shown, orders: seq<Order>, replies: seq<Reply>, quotes: Quotes, clock: Clock, b: Booking)
    requires |orders| == |replies| && b in Tick(shown, orders, replies, quotes, clock).bookings
    ensures b.order in orders && 1 <= b.sets <= Remaining(b.order)
    ensures AllUsable(b.order.legs, quotes, clock) && b.price == SetPrice(b.order.legs, quotes)
    ensures !b.order.market ==> b.price <= b.order.limit
  {
    hide AllUsable, SetPrice;
    if orders == [] {
    } else {
      var n := |orders| - 1;
      var before := Tick(shown, orders[..n], replies[..n], quotes, clock);
      if b in before.bookings {
        LimitsAreKept(shown, orders[..n], replies[..n], quotes, clock, b);
      }
    }
  }

  // ---------- legs that are not distinct ----------

  function Widest(legs: seq<SetLeg>, k: Key): nat {
    if legs == [] then 0
    else
      var last := legs[|legs| - 1];
      var before := Widest(legs[..|legs| - 1], k);
      if KeyOf(last) == k && last.ratio > before then last.ratio else before
  }

  lemma {:induction false} TwoTakeMoreThanTheWidest(legs: seq<SetLeg>, k: Key)
    ensures TakenBy(legs, 1, k) >= Widest(legs, k)
    ensures (exists i :: 0 <= i < |legs| && KeyOf(legs[i]) == k) ==> Widest(legs, k) >= 1
    ensures (exists i, j :: 0 <= i < j < |legs| && KeyOf(legs[i]) == KeyOf(legs[j]) == k) ==> TakenBy(legs, 1, k) > Widest(legs, k)
  {
    if legs == [] {
    } else {
      var init, last := legs[..|legs| - 1], legs[|legs| - 1];
      TwoTakeMoreThanTheWidest(init, k);
      forall i, j | 0 <= i < j < |legs| && KeyOf(legs[i]) == KeyOf(legs[j]) == k
        ensures TakenBy(legs, 1, k) > Widest(legs, k)
      {
        assert KeyOf(init[i]) == k;
        if j < |init| {
          assert KeyOf(init[i]) == KeyOf(init[j]) == k;
        }
      }
      if exists i :: 0 <= i < |legs| && KeyOf(legs[i]) == k {
        var i :| 0 <= i < |legs| && KeyOf(legs[i]) == k;
        if i < |init| {
          assert KeyOf(init[i]) == k;
        }
      }
    }
  }

  lemma {:induction false} EachIsNoWider(legs: seq<SetLeg>, i: nat)
    requires i < |legs|
    ensures legs[i].ratio <= Widest(legs, KeyOf(legs[i]))
  {
    if i == |legs| - 1 {
    } else {
      EachIsNoWider(legs[..|legs| - 1], i);
    }
  }

  /** Just enough of everything for one set, leg by leg. */
  function JustEnough(legs: seq<SetLeg>): Shown {
    map k | k in (set i | 0 <= i < |legs| :: KeyOf(legs[i])) :: Widest(legs, k)
  }

  /** Distinct legs are exactly what it takes. Legs that repeat a side of a contract are each
      counted against the whole of what is shown: for every such order that can be priced and
      is not beyond its limit there are sizes at which booking it is not honest. */
  lemma RepeatedLegsOverdraw(o: Order, quotes: Quotes, clock: Clock)
    requires !DistinctLegs(o.legs) && AllUsable(o.legs, quotes, clock)
    requires Remaining(o) >= 1 && (o.market || SetPrice(o.legs, quotes) <= o.limit)
    ensures var shown := JustEnough(o.legs);
            && (forall k :: k in shown ==> shown[k] >= 0)
            && !Honest(shown, Tick(shown, [o], [Booked], quotes, clock))
  {
    var i, j :| 0 <= i < j < |o.legs| && KeyOf(o.legs[i]) == KeyOf(o.legs[j]);
    var k, shown := KeyOf(o.legs[i]), JustEnough(o.legs);
    var sets := Tried(o, quotes, shown, clock);
    OneSetFits(o.legs, quotes, clock);
    assert sets >= 1 && k in shown;
    TwoTakeMoreThanTheWidest(o.legs, k);
    MoreSetsTakeMore(o.legs, 1, sets, k);
    LoweringTakes(shown, o.legs, sets, k);
    assert [o][..0] == [] && [Booked][..0] == [];
    assert Tick(shown, [o], [Booked], quotes, clock) == Served(Outcome(shown, []), o, Booked, quotes, clock);
  }

  lemma OneSetFits(legs: seq<SetLeg>, quotes: Quotes, clock: Clock)
    requires AllUsable(legs, quotes, clock) && legs != []
    ensures forall i :: 0 <= i < |legs| ==> legs[i].contract in quotes
    ensures SetsOnBook(legs, quotes, JustEnough(legs)) >= 1
  {
    UsableIsQuoted(legs, quotes, clock);
    forall n | 0 <= n < |legs| ensures 1 * legs[n].ratio <= LeftOf(legs[n], quotes, JustEnough(legs)) {
      EachIsNoWider(legs, n);
    }
    SetsAreTheMost(legs, quotes, JustEnough(legs), 1);
  }

  lemma {:induction false} MoreSetsTakeMore(legs: seq<SetLeg>, a: nat, b: nat, k: Key)
    requires a <= b
    ensures TakenBy(legs, a, k) <= TakenBy(legs, b, k)
  {
    if legs == [] {
    } else {
      MoreSetsTakeMore(legs[..|legs| - 1], a, b, k);
      NoMore(a, b, legs[|legs| - 1].ratio);
    }
  }

  // ---------- the loop over the books ----------

  method LowerShown(shown: Shown, legs: seq<SetLeg>, sets: nat) returns (after: Shown)
    ensures after == Lowered(shown, legs, sets)
  {
    after := shown;
    for i := 0 to |legs|
      invariant after == Lowered(shown, legs[..i], sets)
    {
      assert legs[..i + 1][..i] == legs[..i];
      after := after[KeyOf(legs[i]) := ShownAt(after, KeyOf(legs[i])) - legs[i].ratio * sets];
    }
    assert legs[..|legs|] == legs;
  }

  /** What a turn may ask of the order's book: a note why it waits, the tried sets at the
      price of a set, or the mark of a fill made with the clock set aside. */
  predicate Asks(op: Op, o: Order, quotes: Quotes, shown: Shown, clock: Clock) {
    match op
    case Note(id, _) => id == o.id
    case Fill(id, sets, price, legPrices, now) =>
      && id == o.id && sets == Tried(o, quotes, shown, clock) && sets >= 1 && now == clock.now
      && AllUsable(o.legs, quotes, clock) && price == SetPrice(o.legs, quotes) && (o.market || price <= o.limit)
      && legPrices == LegPrices(o.legs, quotes)
    case MarkStand(id) => id == o.id && clock.ignoreAge
    case _ => false
  }

  /** One order, if there is such a one, was filled by so many more sets; its legs are as
      they were, and no other order changed. */
  predicate OnlyGrew(before: map<string, Order>, after: map<string, Order>, id: string, sets: int) {
    && after.Keys == before.Keys
    && (forall k :: k in after && k != id ==> after[k] == before[k])
    && (id in after ==> after[id].legs == before[id].legs && after[id].filledQty == before[id].filledQty + sets)
  }

  /** Asks the book for a fill, and for the mark of one made with the clock set aside. */
  method AskFor(book: B.Book, id: string, sets: int, price: real, legPrices: map<Symbol, real>, clock: Clock)
      returns (reply: Reply, ghost asked: seq<Op>)
    requires book.Valid()
    modifies book
    ensures book.Valid() && book.View() == Run(old(book.View()), asked)
    ensures 1 <= |asked| <= 2 && asked[0] == Op.Fill(id, sets, price, legPrices, clock.now)
    ensures |asked| == 2 ==> asked[1] == Op.MarkStand(id) && clock.ignoreAge
    ensures OnlyGrew(old(book.orders), book.orders, id, if reply.Booked? then sets else 0)
    ensures reply.Booked? ==> id in old(book.orders)
  {
    hide Step, Fillable, Kept, Run;
    ghost var start := book.View();
    RanNothing(start);
    var answer := book.Fill(id, sets, price, legPrices, clock.now);
    asked := RanOne(start, [], start, Op.Fill(id, sets, price, legPrices, clock.now));
    if !answer.Told? {
      return Failed, asked;
    }
    reply := if answer.event.filled then Booked else Uncovered;
    if clock.ignoreAge {
      ghost var filled := book.View();
      book.MarkStand(id);
      asked := RanOne(start, asked, filled, Op.MarkStand(id));
    }
  }

  /** Tells the book why an order waits. */
  method Tell(book: B.Book, id: string, why: string) returns (ghost asked: seq<Op>)
    requires book.Valid()
    modifies book
    ensures book.Valid() && book.View() == Run(old(book.View()), asked) && asked == [Op.Note(id, why)]
    ensures OnlyGrew(old(book.orders), book.orders, id, 0)
  {
    hide Step, Kept, Run;
    ghost var before := book.View();
    RanNothing(before);
    book.Note(id, why);
    asked := RanOne(before, [], before, Op.Note(id, why));
  }

  /** One order's turn at its book. A refusal for want of collateral is not an error, and
      lowers what is shown like a booking. */
  method Fill(book: B.Book, o: Order, quotes: Quotes, shown: Shown, clock: Clock)
      returns (after: Shown, reply: Reply, ghost asked: seq<Op>)
    requires book.Valid()
    modifies book
    ensures book.Valid() && book.View() == Run(old(book.View()), asked)
    ensures forall i :: 0 <= i < |asked| ==> Asks(asked[i], o, quotes, shown, clock)
    ensures after == Served(Outcome(shown, []), o, reply, quotes, clock).shown
    ensures Tried(o, quotes, shown, clock) == 0 ==> reply.Failed?
    ensures OnlyGrew(old(book.orders), book.orders, o.id, SetsBooked(o, reply, quotes, shown, clock))
    ensures reply.Booked? ==> o.id in old(book.orders)
  {
    hide AllUsable, SetPrice, LegPrices, SetsOnBook, Step, Lowered, Kept, Tried, Served, Run;
    after, reply, asked := shown, Failed, [];
    var offer := Executable(o.legs, quotes, shown, clock);
    var sets: int := if offer.Offer? then offer.sets else 0;
    if offer.Offer? && sets > Remaining(o) {
      sets := Remaining(o);
    }
    TriedIs(o, quotes, shown, clock, offer, sets);
    if offer.Nothing? || (!o.market && offer.price > o.limit) || sets < 1 {
      var why := if offer.Nothing? then "nothing to fill against"
                 else if !o.market && offer.price > o.limit then "the market is beyond the limit"
                 else "the opposite side holds not one set";
      asked := Tell(book, o.id, why);
      return;
    }
    reply, asked := AskFor(book, o.id, sets, offer.price, offer.legPrices, clock);
    if reply != Failed {
      after := LowerShown(shown, o.legs, sets);
    }
  }

  /** What the turn works out is how many sets are tried, and what comes of its answer. */
  lemma TriedIs(o: Order, quotes: Quotes, shown: Shown, clock: Clock, offer: Offer, sets: int)
    requires offer.Offer? <==> AllUsable(o.legs, quotes, clock)
    requires offer.Offer? ==> offer.price == SetPrice(o.legs, quotes) && offer.sets == SetsOnBook(o.legs, quotes, shown)
    requires sets == if offer.Nothing? then 0 else if offer.sets > Remaining(o) then Remaining(o) else offer.sets
    ensures if offer.Nothing? || (!o.market && offer.price > o.limit) || sets < 1 then Tried(o, quotes, shown, clock) == 0
            else Tried(o, quotes, shown, clock) == sets
    ensures forall reply ::
              Served(Outcome(shown, []), o, reply, quotes, clock).shown
              == if Tried(o, quotes, shown, clock) < 1 || reply == Failed then shown
                 else Lowered(shown, o.legs, Tried(o, quotes, shown, clock))
  {
    hide AllUsable, SetPrice, SetsOnBook, Lowered;
  }

  lemma RanNothing(s: State)
    ensures Run(s, []) == s
  {
  }

  lemma RanOne(s: State, ops: seq<Op>, t: State, op: Op) returns (ops': seq<Op>)
    requires Run(s, ops) == t
    ensures Run(s, ops') == Step(t, op) && ops' == ops + [op]
  {
    hide Step;
    ops' := ops + [op];
    assert (ops + [op])[..|ops|] == ops;
  }

  /** An order as it stood when the tick began, and the book it stands in. */
  datatype Waiting = Waiting(book: B.Book, order: Order)

  function OrdersOf(waiting: seq<Waiting>): seq<Order> {
    if waiting == [] then [] else OrdersOf(waiting[..|waiting| - 1]) + [waiting[|waiting| - 1].order]
  }

  lemma {:induction false} OrdersOfHasAll(waiting: seq<Waiting>)
    ensures |OrdersOf(waiting)| == |waiting|
    ensures forall i :: 0 <= i < |waiting| ==> OrdersOf(waiting)[i] == waiting[i].order
  {
    if waiting == [] {
    } else {
      OrdersOfHasAll(waiting[..|waiting| - 1]);
    }
  }

  /** The sides of every quote. */
  function SidesOf(quotes: Quotes): set<Key> {
    (set c | c in quotes.Keys :: Key(c, Buy)) + (set c | c in quotes.Keys :: Key(c, Sell))
  }

  /** The sizes a tick starts with: what both sides of every quote show. */
  function ShownBy(quotes: Quotes): Shown {
    map k | k in SidesOf(quotes) :: SizeAt(quotes[k.contract], k.side) as int
  }

  lemma EverySideIsShown(quotes: Quotes)
    ensures forall k: Key :: k in ShownBy(quotes) <==> k.contract in quotes
    ensures Shows(ShownBy(quotes), quotes) && forall k :: k in ShownBy(quotes) ==> ShownBy(quotes)[k] >= 0
  {
    forall k: Key | k.contract in quotes ensures k in ShownBy(quotes) {
      assert k == Key(k.contract, if k.side.Buy? then Buy else Sell);
    }
  }

  /** Over a whole tick, then: no more is booked on a side of a contract than its quote
      shows there. */
  lemma NoMoreThanQuoted(orders: seq<Order>, replies: seq<Reply>, quotes: Quotes, clock: Clock, k: Key)
    requires |orders| == |replies| && k.contract in quotes
    requires forall i :: 0 <= i < |orders| ==> DistinctLegs(orders[i].legs)
    ensures Taken(Tick(ShownBy(quotes), orders, replies, quotes, clock).bookings, k) <= SizeAt(quotes[k.contract], k.side)
  {
    EverySideIsShown(quotes);
    NoMoreThanShown(ShownBy(quotes), orders, replies, quotes, clock);
  }

  method ShowQuotes(quotes: Quotes) returns (shown: Shown)
    ensures shown == ShownBy(quotes)
  {
    shown := map[];
    var left := quotes.Keys;
    while left != {}
      invariant left <= quotes.Keys
      invariant forall k :: k in shown <==> k.contract in quotes && k.contract !in left
      invariant forall k :: k in shown ==> shown[k] == SizeAt(quotes[k.contract], k.side)
      decreases |left|
    {
      var c :| c in left;
      left := left - {c};
      shown := shown[Key(c, Buy) := quotes[c].askSize][Key(c, Sell) := quotes[c].bidSize];
      forall k: Key | k.contract == c ensures k == Key(c, Buy) || k == Key(c, Sell) {
        assert k.side.Buy? || k.side.Sell?;
      }
    }
    EverySideIsShown(quotes);
  }

  /** The order is in its book, with these legs, and so much of it is filled. */
  ghost predicate Holds(w: Waiting, filled: int)
    reads w.book
  {
    && w.order.id in w.book.orders
    && w.book.orders[w.order.id].legs == w.order.legs && w.book.orders[w.order.id].filledQty == filled
  }

  /** No order waits twice. */
  predicate EachWaitsOnce(waiting: seq<Waiting>) {
    forall i, j :: 0 <= i < j < |waiting| ==>
      waiting[i].book != waiting[j].book || waiting[i].order.id != waiting[j].order.id
  }

  /** How many contracts of one side the orders grew by, so many sets each. */
  function GrownOn(orders: seq<Order>, grown: seq<nat>, k: Key): nat
    requires |orders| == |grown|
  {
    if orders == [] then 0
    else
      var n := |orders| - 1;
      GrownOn(orders[..n], grown[..n], k) + TakenBy(orders[n].legs, grown[n], k)
  }

  ghost predicate AllHold(waiting: seq<Waiting>, filled: seq<int>)
    reads set i | 0 <= i < |waiting| :: waiting[i].book
  {
    |filled| == |waiting| && forall i :: 0 <= i < |waiting| ==> waiting[i].book.Valid() && Holds(waiting[i], filled[i])
  }

  /** One turn among the others: only the order whose turn it is can have grown. */
  method TakeTurn(waiting: seq<Waiting>, i: nat, quotes: Quotes, shown: Shown, clock: Clock, ghost filled: seq<int>)
      returns (after: Shown, reply: Reply)
    requires i < |waiting| && EachWaitsOnce(waiting) && AllHold(waiting, filled)
    modifies waiting[i].book
    ensures after == Served(Outcome(shown, []), waiting[i].order, reply, quotes, clock).shown
    ensures AllHold(waiting, filled[i := filled[i] + SetsBooked(waiting[i].order, reply, quotes, shown, clock)])
  {
    hide Served, Tried, Run, Asks, Kept;
    label before:
    ghost var asked;
    after, reply, asked := Fill(waiting[i].book, waiting[i].order, quotes, shown, clock);
    ghost var sets := SetsBooked(waiting[i].order, reply, quotes, shown, clock);
    forall j | 0 <= j < |waiting|
      ensures waiting[j].book.Valid() && Holds(waiting[j], filled[i := filled[i] + sets][j])
    {
      assert old@before(waiting[j].book.Valid() && Holds(waiting[j], filled[j]));
      if j != i && waiting[j].book == waiting[i].book {
        assert waiting[j].order.id != waiting[i].order.id;
      }
    }
  }

  function SetsBooked(o: Order, reply: Reply, quotes: Quotes, shown: Shown, clock: Clock): nat {
    if reply.Booked? then Tried(o, quotes, shown, clock) else 0
  }

  /** The fills of one tick: every waiting order in turn, all against the same sizes. What
      the books' own orders grew by is what the tick says was booked, so over all books
      together it is no more than the quotes show. */
  method Once(waiting: seq<Waiting>, quotes: Quotes, clock: Clock, ghost filled: seq<int>)
      returns (shown: Shown, ghost replies: seq<Reply>, ghost grown: seq<nat>)
    requires EachWaitsOnce(waiting) && AllHold(waiting, filled)
    modifies set i | 0 <= i < |waiting| :: waiting[i].book
    ensures |replies| == |grown| == |OrdersOf(waiting)| == |waiting|
    ensures AllHold(waiting, seq(|waiting|, i requires 0 <= i < |waiting| => filled[i] + grown[i]))
    ensures var tick := Tick(ShownBy(quotes), OrdersOf(waiting), replies, quotes, clock);
            && shown == tick.shown
            && forall k :: GrownOn(OrdersOf(waiting), grown, k) == Taken(tick.bookings, k)
    ensures (forall i :: 0 <= i < |waiting| ==> DistinctLegs(waiting[i].order.legs)) ==>
              forall k: Key :: k.contract in quotes ==>
                GrownOn(OrdersOf(waiting), grown, k) <= SizeAt(quotes[k.contract], k.side)
  {
    hide Served, Tried, Tick, ShownBy, OrdersOf, GrownOn, Taken, DistinctLegs, AllHold, EachWaitsOnce, Serving, SetsBooked;
    AllAreThere(waiting, filled);
    shown := ShowQuotes(quotes);
    replies, grown := [], [];
    ghost var now := filled;
    NobodyServed(ShownBy(quotes), quotes, clock);
    for i := 0 to |waiting|
      invariant |replies| == |grown| == i && |now| == |waiting|
      invariant AllHold(waiting, now)
      invariant forall j :: 0 <= j < |waiting| ==> now[j] == filled[j] + if j < i then grown[j] else 0
      invariant Serving(ShownBy(quotes), shown, waiting[..i], replies, grown, quotes, clock)
    {
      var after, reply := TakeTurn(waiting, i, quotes, shown, clock, now);
      ghost var sets := SetsBooked(waiting[i].order, reply, quotes, shown, clock);
      OneMoreServed(ShownBy(quotes), shown, waiting[..i], replies, grown, waiting[i], reply, quotes, clock);
      assert waiting[..i + 1] == waiting[..i] + [waiting[i]];
      now := now[i := now[i] + sets];
      shown, replies, grown := after, replies + [reply], grown + [sets];
    }
    assert waiting[..|waiting|] == waiting;
    assert now == seq(|waiting|, i requires 0 <= i < |waiting| => filled[i] + grown[i]);
    WhatWasServed(shown, waiting, replies, grown, quotes, clock);
    ServedWithinTheQuotes(shown, waiting, replies, grown, quotes, clock);
  }

  lemma AllAreThere(waiting: seq<Waiting>, filled: seq<int>)
    requires AllHold(waiting, filled)
    ensures |filled| == |waiting|
  {
  }

  lemma WhatWasServed(shown: Shown, waiting: seq<Waiting>, replies: seq<Reply>, grown: seq<nat>, quotes: Quotes, clock: Clock)
    requires Serving(ShownBy(quotes), shown, waiting, replies, grown, quotes, clock)
    ensures |replies| == |grown| == |OrdersOf(waiting)|
    ensures var tick := Tick(ShownBy(quotes), OrdersOf(waiting), replies, quotes, clock);
            && shown == tick.shown
            && forall k :: GrownOn(OrdersOf(waiting), grown, k) == Taken(tick.bookings, k)
  {
  }

  ghost predicate Serving(first: Shown, shown: Shown, waiting: seq<Waiting>, replies: seq<Reply>, grown: seq<nat>,
                          quotes: Quotes, clock: Clock) {
    && |replies| == |grown| == |OrdersOf(waiting)|
    && var tick := Tick(first, OrdersOf(waiting), replies, quotes, clock);
    && shown == tick.shown
    && forall k :: GrownOn(OrdersOf(waiting), grown, k) == Taken(tick.bookings, k)
  }

  lemma NobodyServed(first: Shown, quotes: Quotes, clock: Clock)
    ensures Serving(first, first, [], [], [], quotes, clock)
  {
  }

  lemma {:induction false} NoSetsTakeNothing(legs: seq<SetLeg>, k: Key)
    ensures TakenBy(legs, 0, k) == 0
  {
    if legs == [] {
    } else {
      NoSetsTakeNothing(legs[..|legs| - 1], k);
    }
  }

  /** What a turn books is what it tried, when the book booked it. */
  lemma TurnBooks(out: Outcome, o: Order, reply: Reply, quotes: Quotes, clock: Clock, k: Key)
    ensures Taken(Served(out, o, reply, quotes, clock).bookings, k)
         == Taken(out.bookings, k) + TakenBy(o.legs, SetsBooked(o, reply, quotes, out.shown, clock), k)
  {
    hide SetPrice, SetsOnBook, AllUsable, Lowered, TakenBy;
    NoSetsTakeNothing(o.legs, k);
    var t := Served(out, o, reply, quotes, clock);
    if |t.bookings| > |out.bookings| {
      assert t.bookings[..|out.bookings|] == out.bookings;
    }
  }

  lemma TurnShows(out: Outcome, o: Order, reply: Reply, quotes: Quotes, clock: Clock)
    ensures Served(out, o, reply, quotes, clock).shown == Served(Outcome(out.shown, []), o, reply, quotes, clock).shown
  {
    hide Tried, Lowered, AllUsable, SetPrice;
  }

  lemma OneMoreServed(first: Shown, shown: Shown, waiting: seq<Waiting>, replies: seq<Reply>, grown: seq<nat>, w: Waiting,
                      reply: Reply, quotes: Quotes, clock: Clock)
    requires Serving(first, shown, waiting, replies, grown, quotes, clock)
    ensures Serving(first, Served(Outcome(shown, []), w.order, reply, quotes, clock).shown, waiting + [w], replies + [reply],
                    grown + [SetsBooked(w.order, reply, quotes, shown, clock)], quotes, clock)
  {
    hide Tried, Served, TakenBy, Taken;
    var orders := OrdersOf(waiting);
    var tick := Tick(first, orders, replies, quotes, clock);
    var sets := SetsBooked(w.order, reply, quotes, shown, clock);
    assert (waiting + [w])[..|waiting|] == waiting;
    assert (orders + [w.order])[..|orders|] == orders && (replies + [reply])[..|replies|] == replies;
    assert (grown + [sets])[..|grown|] == grown;
    TurnShows(tick, w.order, reply, quotes, clock);
    forall k
      ensures GrownOn(orders + [w.order], grown + [sets], k) == Taken(Served(tick, w.order, reply, quotes, clock).bookings, k)
    {
      TurnBooks(tick, w.order, reply, quotes, clock, k);
    }
  }

  lemma ServedWithinTheQuotes(shown: Shown, waiting: seq<Waiting>, replies: seq<Reply>, grown: seq<nat>, quotes: Quotes,
                              clock: Clock)
    requires Serving(ShownBy(quotes), shown, waiting, replies, grown, quotes, clock)
    ensures |OrdersOf(waiting)| == |waiting|
    ensures (forall i :: 0 <= i < |waiting| ==> DistinctLegs(waiting[i].order.legs)) ==>
              forall k: Key :: k.contract in quotes ==>
                GrownOn(OrdersOf(waiting), grown, k) <= SizeAt(quotes[k.contract], k.side)
  {
    hide OrdersOf, GrownOn, DistinctLegs, Tick, Taken, ShownBy;
    OrdersOfHasAll(waiting);
    if forall i :: 0 <= i < |waiting| ==> DistinctLegs(waiting[i].order.legs) {
      forall k: Key | k.contract in quotes
        ensures GrownOn(OrdersOf(waiting), grown, k) <= SizeAt(quotes[k.contract], k.side)
      {
        NoMoreThanQuoted(OrdersOf(waiting), replies, quotes, clock, k);
      }
    }
  }

  /** A turn keeps the reserve of its book: what it asks never withdraws an order, and fills
      a limit order at its limit or better. */
  lemma TurnsKeepOrders(s: State, op: Op, o: Order, quotes: Quotes, shown: Shown, clock: Clock)
    requires Asks(op, o, quotes, shown, clock) && !o.market && (o.id in s.orders ==> s.orders[o.id].limit == o.limit)
    ensures Reserves.KeepsOrders(s, op)
  {
  }
}
