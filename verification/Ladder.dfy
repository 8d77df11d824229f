/** One pass of the execution ladder over the resting orders, and what holds over
    many passes: the book's exposure, and the age of an order across replacements.

    Broker calls succeed and a replacement comes back with a fresh id; what the broker
    and the market answer arrives with each order. */
module Ladder {
  import opened Payoff
  import opened Contracts
  import opened Reservation
  import opened Orders
  import opened Walk
  import TooBig
  import Groups
  import Exposure

  /** When the chain's first order was placed, and the pass this ladder last moved it
      on; zero is never. */
  datatype Age = Age(placed: int, movedOn: nat)

  type Ages = map<string, Age>

  /** What the book already risks; full when a position has no floor at all. */
  datatype Risk = Amount(value: real) | Full

  /** A listed order with the answers this pass gets about it. */
  datatype Asked = Asked(order: Order, worst: Option<real>, showing: Option<int>, refused: bool, becomes: string)

  /** What the pass asked once. */
  datatype Pass = Pass(now: Nanoseconds, number: nat, fused: bool, ceiling: Option<real>, book: Option<real>, read: Reader)

  datatype Verdict =
    | NotWorking | CancelledByFuse | CancelledUnbounded | CancelledTooBig | CancelledOverBook
    | TooYoung | MovedAlready | CancelledOnPatience | LeftAlone | Moved(limit: int)

  /** What a pass changes as it goes. */
  datatype Desk = Desk(ages: Ages, atRisk: Risk)

  // ---------- the checks ----------

  /** A breach smaller than one set is forgiven, while there is a set to give up. */
  predicate TooBigFor(order: Order, worst: real, ceiling: real) {
    -worst > ceiling && !(Remaining(order) > 1.0 && -worst - ceiling < -worst / Remaining(order))
  }

  function OneSet(a: Asked): real
    requires a.worst.Some? && Remaining(a.order) > 0.0
  {
    -a.worst.value / Remaining(a.order)
  }

  predicate OverBook(a: Asked, atRisk: Risk, book: real)
    requires a.worst.Some? && Remaining(a.order) > 0.0
  {
    match atRisk
    case Full => true
    case Amount(r) =>
      var over := r - a.worst.value - book;
      over > 0.0 && (Remaining(a.order) <= 1.0 || over >= OneSet(a))
  }

  /** Cancelled for what it is, before the book is asked. */
  predicate RefusedAlone(a: Asked, p: Pass) {
    || p.fused
    || TooBig.IsUnbounded(a.order)
    || (p.ceiling.Some? && a.worst.Some? && TooBigFor(a.order, a.worst.value, p.ceiling.value))
  }

  /** The order's worst case is known and the book is asked whether it has room. */
  predicate Measured(a: Asked, p: Pass) {
    && Working(a.order) && !TooBig.Closes(a.order) && !RefusedAlone(a, p)
    && p.book.Some? && a.worst.Some? && Remaining(a.order) > 0.0
  }

  /** The order adds its worst case to what the pass counts. */
  predicate Accepted(a: Asked, d: Desk, p: Pass) {
    Measured(a, p) && !OverBook(a, d.atRisk, p.book.value)
  }

  function Added(r: Risk, worst: real): Risk {
    match r
    case Full => Full
    case Amount(v) => Amount(v - worst)
  }

  function RiskAfter(a: Asked, d: Desk, p: Pass): Risk {
    if Accepted(a, d, p) then Added(d.atRisk, a.worst.value) else d.atRisk
  }

  function LifeOf(order: Order, ages: Ages, now: int): Age {
    if order.id in ages then ages[order.id]
    else Age(if order.submitted.Some? then order.submitted.value else now, 0)
  }

  /** A chain's life moves onto the id the replacement was given. */
  function Carried(ages: Ages, from: string, to: string, pass: nat): Ages {
    var rest := ages - {from};
    if to == "" || from !in ages then rest else rest[to := ages[from].(movedOn := pass)]
  }

  // ---------- one order ----------

  /** The order reaches the question of how long it has waited. */
  function Patience(a: Asked, ages: Ages, c: Config, p: Pass): (Verdict, Ages)
    requires Runnable(c)
  {
    var life := LifeOf(a.order, ages, p.now);
    var known := ages[a.order.id := life];
    var age := p.now - life.placed;
    if life.movedOn == 0 && age < c.every then (TooYoung, known)
    else if life.movedOn == p.number then (MovedAlready, known)
    else if age > c.patience then (CancelledOnPatience, known - {a.order.id})
    else
      var next := Next(c, a.order.limit, a.showing, Floor(a.order.name, p.read), a.refused, age);
      if next == a.order.limit then (LeftAlone, known)
      else (Moved(next), Carried(known, a.order.id, a.becomes, p.number))
  }

  function Judge(a: Asked, d: Desk, c: Config, p: Pass): (Verdict, Desk)
    requires Runnable(c)
  {
    if !Working(a.order) then (NotWorking, d)
    else if p.fused && !TooBig.Closes(a.order) then (CancelledByFuse, d.(ages := d.ages - {a.order.id}))
    else if !TooBig.Closes(a.order) && TooBig.IsUnbounded(a.order) then (CancelledUnbounded, d)
    else if !TooBig.Closes(a.order) && RefusedAlone(a, p) then (CancelledTooBig, d)
    else if Measured(a, p) && OverBook(a, d.atRisk, p.book.value) then (CancelledOverBook, d)
    else
      var (verdict, ages) := Patience(a, d.ages, c, p);
      (verdict, Desk(ages, RiskAfter(a, d, p)))
  }

  /** The desk after the orders so far. */
  function Judged(asked: seq<Asked>, d: Desk, c: Config, p: Pass): Desk
    requires Runnable(c)
  {
    if asked == [] then d
    else Judge(asked[|asked| - 1], Judged(asked[..|asked| - 1], d, c, p), c, p).1
  }

  lemma NothingJudged(d: Desk, c: Config, p: Pass)
    requires Runnable(c)
    ensures Judged([], d, c, p) == d
  {
  }

  lemma JudgeMovesNoLaterThanNow(a: Asked, d: Desk, c: Config, p: Pass)
    requires Runnable(c) && forall id :: id in d.ages ==> d.ages[id].movedOn <= p.number
    ensures forall id :: id in Judge(a, d, c, p).1.ages ==> Judge(a, d, c, p).1.ages[id].movedOn <= p.number
  {
  }

  /** Chains of orders that are over are dropped on a positive signal, and by age only
      where the broker no longer shows them as working. */
  function Remembered(ages: Ages, asked: seq<Asked>, now: int, c: Config): Ages {
    map id | id in ages && !ShownOver(asked, id) &&
             (ShownWorking(asked, id) || ages[id].placed >= now - (c.patience + c.every)) :: ages[id]
  }

  predicate ShownWorking(asked: seq<Asked>, id: string) {
    exists i :: 0 <= i < |asked| && asked[i].order.id == id && Working(asked[i].order)
  }

  predicate ShownOver(asked: seq<Asked>, id: string) {
    exists i :: 0 <= i < |asked| && asked[i].order.id == id && !Working(asked[i].order)
  }

  /** The loop of a pass: every order in the order listed, each seeing what the ones
      before it left. */
  method JudgeAll(asked: seq<Asked>, d: Desk, c: Config, p: Pass) returns (verdicts: seq<Verdict>, desk: Desk)
    requires Runnable(c) && forall id :: id in d.ages ==> d.ages[id].movedOn <= p.number
    ensures desk == Judged(asked, d, c, p)
    ensures |verdicts| == |asked|
    ensures forall i :: 0 <= i < |asked| ==> verdicts[i] == Judge(asked[i], Judged(asked[..i], d, c, p), c, p).0
    ensures forall id :: id in desk.ages ==> desk.ages[id].movedOn <= p.number
  {
    hide Judge, Judged;
    desk, verdicts := d, [];
    NothingJudged(d, c, p);
    assert asked[..0] == [];
    for i := 0 to |asked|
      invariant desk == Judged(asked[..i], d, c, p)
      invariant |verdicts| == i
      invariant forall j :: 0 <= j < i ==> verdicts[j] == Judge(asked[j], Judged(asked[..j], d, c, p), c, p).0
      invariant forall id :: id in desk.ages ==> desk.ages[id].movedOn <= p.number
    {
      JudgedStep(asked, i, d, c, p);
      JudgeMovesNoLaterThanNow(asked[i], desk, c, p);
      var (verdict, next) := Judge(asked[i], desk, c, p);
      desk := next;
      verdicts := verdicts + [verdict];
    }
    assert asked[..|asked|] == asked;
  }

  /** The ladder's memory: its own count of passes, and the chains it knows. */
  class Ladder {
    const config: Config
    var passes: nat
    var ages: Ages

    ghost predicate Valid()
      reads this
    {
      Runnable(config) && forall id :: id in ages ==> ages[id].movedOn <= passes
    }

    constructor (config: Config)
      requires Runnable(config)
      ensures Valid() && this.config == config && passes == 0 && ages == map[]
    {
      this.config := config;
      passes, ages := 0, map[];
    }

    method ForgetWhatIsDone(asked: seq<Asked>, now: int)
      requires Valid()
      modifies this`ages
      ensures Valid() && ages == Remembered(old(ages), asked, now, config)
    {
      var alive: set<string> := {};
      ghost var before := ages;
      for i := 0 to |asked|
        invariant alive == set j | 0 <= j < i && Working(asked[j].order) :: asked[j].order.id
        invariant ages == before - set j | 0 <= j < i && !Working(asked[j].order) :: asked[j].order.id
      {
        if Working(asked[i].order) {
          alive := alive + {asked[i].order.id};
        } else {
          ages := ages - {asked[i].order.id};
        }
      }
      var stale := now - (config.patience + config.every);
      ages := map id | id in ages && (id in alive || ages[id].placed >= stale) :: ages[id];
      assert ages == Remembered(before, asked, now, config);
    }

    /** A pass: one moment for all of it, every order judged in the order listed. */
    method Step(asked: seq<Asked>, now: Nanoseconds, fused: bool, ceiling: Option<real>, book: Option<real>,
                atRisk: Risk, read: Reader)
      returns (verdicts: seq<Verdict>, risk: Risk)
      requires Valid()
      modifies this
      ensures Valid() && passes == old(passes) + 1
      ensures var p := Pass(now, passes, fused, ceiling, book, read);
              var d := Desk(Remembered(old(ages), asked, now, config), atRisk);
              && Judged(asked, d, config, p) == Desk(ages, risk)
              && |verdicts| == |asked|
              && forall i :: 0 <= i < |asked| ==> verdicts[i] == Judge(asked[i], Judged(asked[..i], d, config, p), config, p).0
    {
      passes := passes + 1;
      ForgetWhatIsDone(asked, now);
      var p := Pass(now, passes, fused, ceiling, book, read);
      ghost var d := Desk(ages, atRisk);
      var desk;
      verdicts, desk := JudgeAll(asked, Desk(ages, atRisk), config, p);
      ages, risk := desk.ages, desk.atRisk;
    }
  }

  // ---------- the exposure of one pass ----------

  /** What is known of the orders' worst cases: losses, of orders that can be read. */
  ghost predicate Sound(asked: seq<Asked>) {
    forall i :: 0 <= i < |asked| && asked[i].worst.Some? ==> asked[i].worst.value <= 0.0 && TooBig.Known(asked[i].order)
  }

  /** The i-th order was accepted, as the pass stood when it was judged. */
  ghost predicate AcceptedAt(asked: seq<Asked>, i: int, d: Desk, c: Config, p: Pass)
    requires Runnable(c) && 0 <= i < |asked|
  {
    Accepted(asked[i], Judged(asked[..i], d, c, p), p)
  }

  lemma JudgedStep(asked: seq<Asked>, n: nat, d: Desk, c: Config, p: Pass)
    requires Runnable(c) && n < |asked|
    ensures Judged(asked[..n + 1], d, c, p) == Judge(asked[n], Judged(asked[..n], d, c, p), c, p).1
    ensures Judged(asked[..n + 1], d, c, p).atRisk == RiskAfter(asked[n], Judged(asked[..n], d, c, p), p)
  {
    assert asked[..n + 1][..n] == asked[..n];
  }

  /** The i-th order is the one that crossed: the risk was within the book before it,
      passes it by less than one of its own sets, and stays there: nothing measured
      after it is accepted. */
  ghost predicate Crossed(asked: seq<Asked>, i: int, n: nat, d: Desk, c: Config, p: Pass)
    requires Runnable(c) && p.book.Some? && n <= |asked|
  {
    && 0 <= i < n && AcceptedAt(asked, i, d, c, p)
    && Judged(asked[..i], d, c, p).atRisk.Amount?
    && Judged(asked[..i], d, c, p).atRisk.value <= p.book.value
    && Judged(asked[..n], d, c, p).atRisk == Judged(asked[..i + 1], d, c, p).atRisk
    && Remaining(asked[i].order) > 1.0
    && Judged(asked[..n], d, c, p).atRisk.Amount?
    && p.book.value < Judged(asked[..n], d, c, p).atRisk.value < p.book.value + OneSet(asked[i])
    && forall j :: i < j < n ==> !AcceptedAt(asked, j, d, c, p)
  }

  lemma MeasuredIsKnown(a: Asked, p: Pass)
    requires Measured(a, p)
    ensures p.book.Some? && a.worst.Some? && Remaining(a.order) > 0.0
  {
  }

  /** However many orders one pass looks at, what they may lose together with what was
      open is within the book, or past it by less than one set of the one order that
      crossed. */
  lemma {:induction false} BudgetOfAPass(asked: seq<Asked>, n: nat, d: Desk, c: Config, p: Pass)
    requires Runnable(c) && Sound(asked) && n <= |asked|
    requires p.book.Some? && d.atRisk.Amount? && d.atRisk.value <= p.book.value
    ensures Judged(asked[..n], d, c, p).atRisk.Amount?
    ensures Judged(asked[..n], d, c, p).atRisk.value <= p.book.value || exists i :: Crossed(asked, i, n, d, c, p)
  {
    if n == 0 {
      assert asked[..0] == [];
    } else {
      hide Judge, Judged, Measured;
      var m := n - 1;
      BudgetOfAPass(asked, m, d, c, p);
      JudgedStep(asked, m, d, c, p);
      var before := Judged(asked[..m], d, c, p);
      if Measured(asked[m], p) {
        MeasuredIsKnown(asked[m], p);
      }
      if before.atRisk.value <= p.book.value {
        if Judged(asked[..n], d, c, p).atRisk.value > p.book.value {
          assert Crossed(asked, m, n, d, c, p);
        }
      } else {
        var i :| Crossed(asked, i, m, d, c, p);
        PastTheBookNothingFits(asked[m], before, p);
        assert Crossed(asked, i, n, d, c, p);
      }
    }
  }

  /** Once past the book no order of known worst case is accepted, even one that can
      lose nothing. */
  lemma PastTheBookNothingFits(a: Asked, d: Desk, p: Pass)
    requires p.book.Some? && d.atRisk.Amount? && d.atRisk.value > p.book.value
    requires a.worst.Some? ==> a.worst.value <= 0.0
    ensures !Accepted(a, d, p)
  {
    if Measured(a, p) && Remaining(a.order) > 1.0 {
      SetIsPart(-a.worst.value, Remaining(a.order));
    }
  }

  lemma SetIsPart(loss: real, sets: real)
    requires loss >= 0.0 && sets > 1.0
    ensures 0.0 <= loss / sets <= loss
  {
    var each := loss / sets;
    assert each * sets == loss;
    NonNegativeFactor(each, sets);
    ProductOfNonNegatives(each, sets - 1.0);
  }

  lemma NonNegativeFactor(x: real, y: real)
    requires y > 0.0 && x * y >= 0.0
    ensures x >= 0.0
  {
  }

  /** A book already full takes nothing. */
  lemma {:induction false} FullTakesNothing(asked: seq<Asked>, n: nat, d: Desk, c: Config, p: Pass)
    requires Runnable(c) && n <= |asked| && d.atRisk.Full?
    ensures Judged(asked[..n], d, c, p).atRisk.Full?
    ensures n < |asked| ==> !AcceptedAt(asked, n, d, c, p)
  {
    if n == 0 {
    } else {
      FullTakesNothing(asked, n - 1, d, c, p);
      JudgedStep(asked, n - 1, d, c, p);
    }
  }

  // ---------- what the account can lose ----------

  /** What the accepted orders lose or make together, each settled at prices of its own. */
  ghost function AcceptedWorth(asked: seq<Asked>, n: nat, d: Desk, c: Config, p: Pass,
                               fills: seq<seq<TooBig.Fill>>, at: seq<Prices>): real
    requires Runnable(c) && Sound(asked) && n <= |asked| == |fills| == |at|
  {
    if n == 0 then 0.0
    else
      AcceptedWorth(asked, n - 1, d, c, p, fills, at) +
      if AcceptedAt(asked, n - 1, d, c, p) then TooBig.FillsWorth(asked[n - 1].order, fills[n - 1], at[n - 1]) else 0.0
  }

  /** Fills any walk of the order may make: no more sets than rest, none past its floor. */
  ghost predicate Fillable(order: Order, fills: seq<TooBig.Fill>, read: Reader) {
    && TooBig.Sets(fills) <= Remaining(order)
    && forall i :: 0 <= i < |fills| ==> fills[i].sets >= 0.0 && fills[i].price <= TooBig.WorstPrice(order, read)
  }

  /** Some fills for each of the orders, and a settlement for each. */
  ghost predicate MayFill(asked: seq<Asked>, fills: seq<seq<TooBig.Fill>>, at: seq<Prices>, read: Reader) {
    && |asked| == |fills| == |at|
    && forall i :: 0 <= i < |asked| ==> NonNegative(at[i]) && Fillable(asked[i].order, fills[i], read)
  }

  /** The worst cases handed to the pass bound what the orders it accepts can lose, at
      whatever price each series of them is settled. */
  ghost predicate Bounding(asked: seq<Asked>, d: Desk, c: Config, p: Pass)
    requires Runnable(c) && Sound(asked)
  {
    forall i :: 0 <= i < |asked| && AcceptedAt(asked, i, d, c, p) ==>
      TooBig.BoundsEverySettlement(asked[i].order, TooBig.WorstPrice(asked[i].order, p.read), asked[i].worst.value)
  }

  lemma {:induction false} AcceptedLoseWhatWasCounted(asked: seq<Asked>, n: nat, d: Desk, c: Config, p: Pass,
                                                      fills: seq<seq<TooBig.Fill>>, at: seq<Prices>)
    requires Runnable(c) && Sound(asked) && Bounding(asked, d, c, p) && n <= |asked| == |fills| == |at|
    requires d.atRisk.Amount?
    requires forall i :: 0 <= i < n ==> NonNegative(at[i]) && Fillable(asked[i].order, fills[i], p.read)
    ensures Judged(asked[..n], d, c, p).atRisk.Amount?
    ensures AcceptedWorth(asked, n, d, c, p, fills, at) >= d.atRisk.value - Judged(asked[..n], d, c, p).atRisk.value
  {
    if n == 0 {
    } else {
      hide TooBig.FillsWorth, TooBig.WorstPrice, TooBig.BoundsEverySettlement, TooBig.Known, NonNegative;
      AcceptedLoseWhatWasCounted(asked, n - 1, d, c, p, fills, at);
      JudgedStep(asked, n - 1, d, c, p);
      if AcceptedAt(asked, n - 1, d, c, p) {
        var a := asked[n - 1];
        TooBig.LossOverAWholeWalk(a.order, TooBig.WorstPrice(a.order, p.read), a.worst.value, fills[n - 1], at[n - 1]);
      }
    }
  }

  /** A loss of no more than the book, or of less than the book and one set of the
      order that crossed it. */
  ghost predicate WithinTheBook(worth: real, asked: seq<Asked>, d: Desk, c: Config, p: Pass)
    requires Runnable(c) && p.book.Some?
  {
    || worth >= -p.book.value
    || exists i :: Crossed(asked, i, |asked|, d, c, p) && worth > -(p.book.value + OneSet(asked[i]))
  }

  /** End to end. What is open, at any prices, together with everything the accepted
      orders may yet become - filled at any prices down to their floors, each series of
      theirs settled at any price - loses no more than the book, or than the book and less
      than one set of the order that crossed it. */
  lemma ExposureOfTheAccount(lines: seq<Groups.Line>, risk: real, asked: seq<Asked>, d: Desk, c: Config, p: Pass,
                             fills: seq<seq<TooBig.Fill>>, at: seq<Prices>, prices: Prices, some: set<Series>)
    requires Runnable(c) && Sound(asked) && Bounding(asked, d, c, p) && MayFill(asked, fills, at, p.read)
    requires Exposure.IsRisk(lines, risk) && d.atRisk == Amount(risk)
    requires p.book.Some? && risk <= p.book.value
    requires NonNegative(prices) && some <= Groups.SeriesOf(lines)
    ensures WithinTheBook(Groups.WorthIn(lines, some, prices) + AcceptedWorth(asked, |asked|, d, c, p, fills, at),
                          asked, d, c, p)
  {
    hide Sound, Bounding, Fillable, Exposure.IsRisk, NonNegative, Judged, AcceptedWorth, WithinTheBook,
         Groups.SeriesOf, Groups.WorthIn;
    WorthOfWhatIsOpen(lines, risk, prices, some);
    AcceptedInAll(asked, d, c, p, fills, at);
    BookOrOneSet(Groups.WorthIn(lines, some, prices) + AcceptedWorth(asked, |asked|, d, c, p, fills, at), asked, d, c, p);
  }

  lemma AcceptedInAll(asked: seq<Asked>, d: Desk, c: Config, p: Pass, fills: seq<seq<TooBig.Fill>>, at: seq<Prices>)
    requires Runnable(c) && Sound(asked) && Bounding(asked, d, c, p) && MayFill(asked, fills, at, p.read)
    requires d.atRisk.Amount?
    ensures Judged(asked, d, c, p).atRisk.Amount?
    ensures AcceptedWorth(asked, |asked|, d, c, p, fills, at) >= d.atRisk.value - Judged(asked, d, c, p).atRisk.value
  {
    hide Judged, AcceptedWorth, Sound, Bounding, Fillable, NonNegative;
    AcceptedLoseWhatWasCounted(asked, |asked|, d, c, p, fills, at);
    assert asked[..|asked|] == asked;
  }

  lemma BookOrOneSet(worth: real, asked: seq<Asked>, d: Desk, c: Config, p: Pass)
    requires Runnable(c) && Sound(asked)
    requires p.book.Some? && d.atRisk.Amount? && d.atRisk.value <= p.book.value
    requires Judged(asked, d, c, p).atRisk.Amount? && worth >= -Judged(asked, d, c, p).atRisk.value
    ensures WithinTheBook(worth, asked, d, c, p)
  {
    hide Judged, Crossed, Sound;
    if Judged(asked, d, c, p).atRisk.value > p.book.value {
      var i := WhoCrossed(asked, d, c, p);
      assert Crossed(asked, i, |asked|, d, c, p) && worth > -(p.book.value + OneSet(asked[i]));
    }
  }

  lemma WhoCrossed(asked: seq<Asked>, d: Desk, c: Config, p: Pass) returns (i: int)
    requires Runnable(c) && Sound(asked)
    requires p.book.Some? && d.atRisk.Amount? && d.atRisk.value <= p.book.value
    requires Judged(asked, d, c, p).atRisk.Amount? && Judged(asked, d, c, p).atRisk.value > p.book.value
    ensures Crossed(asked, i, |asked|, d, c, p)
    ensures 0 <= i < |asked| && asked[i].worst.Some? && Remaining(asked[i].order) > 0.0
    ensures Judged(asked, d, c, p).atRisk.value < p.book.value + OneSet(asked[i])
  {
    BudgetOfAPass(asked, |asked|, d, c, p);
    assert asked[..|asked|] == asked;
    i :| Crossed(asked, i, |asked|, d, c, p);
  }

  lemma WorthOfWhatIsOpen(lines: seq<Groups.Line>, risk: real, prices: Prices, some: set<Series>)
    requires Exposure.IsRisk(lines, risk) && NonNegative(prices) && some <= Groups.SeriesOf(lines)
    ensures Groups.WorthIn(lines, some, prices) >= -risk
  {
  }

  // ---------- the age of a chain ----------

  /** Nothing else in the listing has this id, nor will be given it. */
  ghost predicate OnlyAt(asked: seq<Asked>, k: nat, id: string) {
    && k < |asked| && asked[k].order.id == id
    && (forall i :: 0 <= i < |asked| && i != k ==> asked[i].order.id != id && asked[i].becomes != id)
  }

  /** The order is working and no check but patience takes it. */
  predicate OnlyPatience(a: Asked, d: Desk, p: Pass) {
    && Working(a.order)
    && (TooBig.Closes(a.order) ||
        (!RefusedAlone(a, p) && !(Measured(a, p) && OverBook(a, d.atRisk, p.book.value))))
  }

  lemma JudgeLeavesItAlone(a: Asked, id: string, d: Desk, c: Config, p: Pass)
    requires Runnable(c) && a.order.id != id && a.becomes != id
    ensures id in Judge(a, d, c, p).1.ages <==> id in d.ages
    ensures id in d.ages ==> Judge(a, d, c, p).1.ages[id] == d.ages[id]
  {
  }

  /** Other orders leave a chain's life alone. */
  lemma {:induction false} OthersLeaveItAlone(asked: seq<Asked>, n: nat, id: string, d: Desk, c: Config, p: Pass)
    requires Runnable(c) && n <= |asked|
    requires forall i :: 0 <= i < n ==> asked[i].order.id != id && asked[i].becomes != id
    ensures id in Judged(asked[..n], d, c, p).ages <==> id in d.ages
    ensures id in d.ages ==> Judged(asked[..n], d, c, p).ages[id] == d.ages[id]
  {
    if n == 0 {
    } else {
      OthersLeaveItAlone(asked, n - 1, id, d, c, p);
      JudgedStep(asked, n - 1, d, c, p);
      JudgeLeavesItAlone(asked[n - 1], id, Judged(asked[..n - 1], d, c, p), c, p);
    }
  }

  lemma {:induction false} LaterOnesLeaveItAlone(asked: seq<Asked>, k: nat, n: nat, id: string, d: Desk, c: Config, p: Pass)
    requires Runnable(c) && k <= n <= |asked|
    requires forall i :: k <= i < n ==> asked[i].order.id != id && asked[i].becomes != id
    ensures id in Judged(asked[..n], d, c, p).ages <==> id in Judged(asked[..k], d, c, p).ages
    ensures id in Judged(asked[..k], d, c, p).ages ==>
              Judged(asked[..n], d, c, p).ages[id] == Judged(asked[..k], d, c, p).ages[id]
  {
    if n == k {
    } else {
      hide Judge;
      LaterOnesLeaveItAlone(asked, k, n - 1, id, d, c, p);
      JudgedStep(asked, n - 1, d, c, p);
      JudgeLeavesItAlone(asked[n - 1], id, Judged(asked[..n - 1], d, c, p), c, p);
    }
  }

  /** Where a chain stands between passes: its live order's id, name and limit, and
      whether it is over. */
  datatype Chain = Chain(id: string, name: string, limit: int, over: bool)

  /** The broker shows the chain's live order as working, as it was left, no check but
      patience takes it, and a replacement would come back under an id nobody has. */
  ghost predicate ShowsTheChain(asked: seq<Asked>, k: nat, chain: Chain, ages: Ages, d: Desk, c: Config, p: Pass)
    requires Runnable(c)
  {
    && OnlyAt(asked, k, chain.id) && OnlyPatience(asked[k], Judged(asked[..k], d, c, p), p)
    && asked[k].order.name == chain.name && asked[k].order.limit == chain.limit
    && asked[k].becomes != "" && asked[k].becomes !in ages
    && (forall i :: 0 <= i < |asked| ==> asked[i].order.id != asked[k].becomes)
    && (forall i :: 0 <= i < |asked| && i != k ==> asked[i].becomes != asked[k].becomes)
  }

  /** What a verdict makes of the chain: a move is a replacement, under a new id and a
      name rebuilt from the old one. */
  function ChainAfter(chain: Chain, verdict: Verdict, becomes: string, p: Pass): Chain {
    if verdict.Moved? then Chain(becomes, NameCarrying(chain.name, p.now, p.read), verdict.limit, false)
    else chain.(over := verdict.CancelledOnPatience?)
  }

  lemma ShownIsRemembered(asked: seq<Asked>, k: nat, id: string, ages: Ages, d: Desk, c: Config, p: Pass)
    requires OnlyAt(asked, k, id) && Working(asked[k].order) && id in ages
    requires asked[k].becomes !in ages && d.ages == Remembered(ages, asked, p.now, c)
    ensures id in d.ages && d.ages[id] == ages[id] && asked[k].becomes !in d.ages
  {
    assert ShownWorking(asked, id);
    assert !ShownOver(asked, id);
  }

  /** What patience does with an order whose life is known. */
  lemma JudgedOnPatience(a: Asked, d: Desk, c: Config, p: Pass)
    requires Runnable(c) && c.patience >= c.every
    requires OnlyPatience(a, d, p) && a.order.id in d.ages && d.ages[a.order.id].movedOn < p.number
    requires a.becomes != "" && a.becomes != a.order.id
    ensures var (verdict, after) := Judge(a, d, c, p);
            var life := d.ages[a.order.id];
            && verdict == Patience(a, map[a.order.id := life], c, p).0
            && (verdict.CancelledOnPatience? <==> p.now - life.placed > c.patience)
            && (verdict in {TooYoung, LeftAlone, CancelledOnPatience} || verdict.Moved?)
            && (verdict.CancelledOnPatience? ==> a.order.id !in after.ages)
            && (verdict.Moved? ==> a.becomes in after.ages && after.ages[a.becomes] == Age(life.placed, p.number))
            && (verdict in {TooYoung, LeftAlone} ==> a.order.id in after.ages && after.ages[a.order.id] == life)
  {
    hide Next, Floor;
  }

  /** One pass over a known chain: its placed time does not move; it is cancelled on
      patience exactly when that time is further back than patience; otherwise it goes
      on living under one id, and if it moved it was for the first time this pass. */
  lemma ChainThroughOnePass(asked: seq<Asked>, k: nat, chain: Chain, ages: Ages, d: Desk, c: Config, p: Pass)
    returns (verdict: Verdict, next: Chain)
    requires Runnable(c) && c.patience >= c.every
    requires chain.id in ages && ages[chain.id].movedOn < p.number
    requires ShowsTheChain(asked, k, chain, ages, d, c, p)
    requires d.ages == Remembered(ages, asked, p.now, c)
    ensures verdict == Judge(asked[k], Judged(asked[..k], d, c, p), c, p).0
    ensures next == ChainAfter(chain, verdict, asked[k].becomes, p)
    ensures verdict == Patience(asked[k], map[chain.id := ages[chain.id]], c, p).0
    ensures verdict.CancelledOnPatience? <==> p.now - ages[chain.id].placed > c.patience
    ensures verdict in {TooYoung, LeftAlone, CancelledOnPatience} || verdict.Moved?
    ensures var after := Judged(asked, d, c, p).ages;
            if next.over then next.id !in after
            else next.id in after && after[next.id].placed == ages[chain.id].placed &&
                 after[next.id].movedOn == if verdict.Moved? then p.number else ages[chain.id].movedOn
  {
    ShownIsRemembered(asked, k, chain.id, ages, d, c, p);
    hide Judge, Judged, Remembered, OnlyPatience;
    OthersLeaveItAlone(asked, k, chain.id, d, c, p);
    OthersLeaveItAlone(asked, k, asked[k].becomes, d, c, p);
    JudgedStep(asked, k, d, c, p);
    var here := Judged(asked[..k], d, c, p);
    verdict := Judge(asked[k], here, c, p).0;
    JudgedOnPatience(asked[k], here, c, p);
    next := ChainAfter(chain, verdict, asked[k].becomes, p);
    LaterOnesLeaveItAlone(asked, k + 1, |asked|, next.id, d, c, p);
    assert asked[..|asked|] == asked;
  }

  /** What one pass is given. */
  datatype Given = Given(asked: seq<Asked>, k: nat, p: Pass, atRisk: Risk)

  /** The ladder's memory and the chain after the passes so far. */
  datatype World = World(ages: Ages, passes: nat, chain: Chain)

  function DeskOf(w: World, g: Given, c: Config): Desk {
    Desk(Remembered(w.ages, g.asked, g.p.now, c), g.atRisk)
  }

  /** One pass, as the ladder runs it. */
  function RunPass(w: World, g: Given, c: Config): World
    requires Runnable(c)
  {
    var d := DeskOf(w, g, c);
    World(Judged(g.asked, d, c, g.p).ages, w.passes + 1,
          if w.chain.over || g.k >= |g.asked| then w.chain
          else ChainAfter(w.chain, Judge(g.asked[g.k], Judged(g.asked[..g.k], d, c, g.p), c, g.p).0, g.asked[g.k].becomes, g.p))
  }

  function Run(w: World, given: seq<Given>, c: Config): World
    requires Runnable(c)
  {
    if given == [] then w else RunPass(Run(w, given[..|given| - 1], c), given[|given| - 1], c)
  }

  /** Every pass shows the chain while it lives, and is numbered in its turn. */
  ghost predicate Shown(w: World, given: seq<Given>, c: Config)
    requires Runnable(c)
  {
    given == [] ||
    (var g, before := given[|given| - 1], Run(w, given[..|given| - 1], c);
     && Shown(w, given[..|given| - 1], c)
     && g.p.number == before.passes + 1
     && (!before.chain.over ==> ShowsTheChain(g.asked, g.k, before.chain, before.ages, DeskOf(before, g, c), c, g.p)))
  }

  /** Patience had run out by one of these passes. */
  ghost predicate RanOut(given: seq<Given>, placed: int, c: Config) {
    exists i :: 0 <= i < |given| && given[i].p.now - placed > c.patience
  }

  /** The ladder knows the chain, and when its first order was placed. */
  ghost predicate Knows(w: World, placed: int) {
    !w.chain.over && w.chain.id in w.ages && w.ages[w.chain.id].placed == placed && w.ages[w.chain.id].movedOn <= w.passes
  }

  /** The age survives every replacement: through any number of passes the live order
      of the chain carries the time its first order was placed, and the chain is over -
      cancelled on patience - exactly when a pass has come later than patience allows
      after that one time. The clock is never restarted. */
  lemma {:induction false} AgeSurvivesReplacement(w: World, given: seq<Given>, c: Config, placed: int)
    requires Runnable(c) && c.patience >= c.every && Shown(w, given, c) && Knows(w, placed)
    ensures Run(w, given, c).chain.over <==> RanOut(given, placed, c)
    ensures !RanOut(given, placed, c) ==> Knows(Run(w, given, c), placed)
  {
    if given == [] {
    } else {
      hide Judge, Judged, Patience, ShowsTheChain;
      var init, g := given[..|given| - 1], given[|given| - 1];
      AgeSurvivesReplacement(w, init, c, placed);
      var before := Run(w, init, c);
      RanOutAppend(init, g, placed, c);
      assert given == init + [g];
      if !before.chain.over {
        OnlyThere(g.asked, g.k, before, g, c);
        var verdict, next := ChainThroughOnePass(g.asked, g.k, before.chain, before.ages, DeskOf(before, g, c), c, g.p);
      }
    }
  }

  lemma OnlyThere(asked: seq<Asked>, k: nat, w: World, g: Given, c: Config)
    requires Runnable(c) && ShowsTheChain(asked, k, w.chain, w.ages, DeskOf(w, g, c), c, g.p)
    ensures k < |asked|
  {
  }

  lemma RanOutAppend(given: seq<Given>, g: Given, placed: int, c: Config)
    ensures RanOut(given + [g], placed, c) <==> RanOut(given, placed, c) || g.p.now - placed > c.patience
  {
    if g.p.now - placed > c.patience {
      assert (given + [g])[|given|] == g;
    }
    if RanOut(given, placed, c) {
      var i :| 0 <= i < |given| && given[i].p.now - placed > c.patience;
      assert (given + [g])[i] == given[i];
    }
  }

  // ---------- the ladder lives the walk ----------

  /** What the passes see of the chain's order. */
  function SeenBy(given: seq<Given>): seq<Seen>
    requires forall i :: 0 <= i < |given| ==> given[i].k < |given[i].asked|
  {
    seq(|given|, i requires 0 <= i < |given| => Seen(given[i].asked[given[i].k].showing, given[i].asked[given[i].k].refused))
  }

  /** The passes are one interval apart and read numbers the same way. */
  ghost predicate Ticks(given: seq<Given>, first: int, read: Reader, c: Config) {
    forall i :: 0 <= i < |given| ==>
      given[i].k < |given[i].asked| && given[i].p.now == first + i * c.every && given[i].p.read == read
  }

  /** A floor that fits a name with any stamp. */
  predicate ShortEnough(floor: int) {
    |NameFor(floor)| + 21 <= NAME_LIMIT
  }

  /** One verdict of the ladder is one pass of the walk's life. */
  lemma VerdictIsOnePass(a: Asked, age: Age, c: Config, p: Pass, life: Life, floor: int)
    requires Runnable(c) && age.movedOn < p.number
    requires Floor(a.order.name, p.read) == Some(floor) && a.order.limit == life.limit
    requires !life.cancelled && (life.moved <==> age.movedOn != 0)
    ensures var verdict := Patience(a, map[a.order.id := age], c, p).0;
            OnePass(c, life, floor, p.now - age.placed, Seen(a.showing, a.refused)) ==
            match verdict
            case Moved(limit) => Life(limit, true, false)
            case CancelledOnPatience => life.(cancelled := true)
            case _ => life
  {
    hide Next;
  }

  /** The chain stands where the life does, and the ladder knows it while it lives. */
  ghost predicate Lives(w: World, life: Life, placed: int, read: Reader, floor: int) {
    && w.chain.limit == life.limit && w.chain.over == life.cancelled
    && Floor(w.chain.name, read) == Some(floor)
    && (!w.chain.over ==> Knows(w, placed) && (w.ages[w.chain.id].movedOn != 0 <==> life.moved))
  }

  lemma PassLivesOnePass(w: World, g: Given, c: Config, life: Life, placed: int, read: Reader, floor: int)
    requires Runnable(c) && c.patience >= c.every && ReadsDecimals(read) && ShortEnough(floor)
    requires Lives(w, life, placed, read, floor)
    requires g.k < |g.asked| && g.p.read == read && g.p.number == w.passes + 1
    requires !w.chain.over ==> ShowsTheChain(g.asked, g.k, w.chain, w.ages, DeskOf(w, g, c), c, g.p)
    ensures Lives(RunPass(w, g, c),
                  OnePass(c, life, floor, g.p.now - placed, Seen(g.asked[g.k].showing, g.asked[g.k].refused)),
                  placed, read, floor)
  {
    hide Judge, Judged, Patience, ShowsTheChain, Remembered, OnePass, NameCarrying, Floor, NameFor, ReadsDecimals;
    if w.chain.over {
      CancelledStays(c, life, floor, g.p.now - placed, Seen(g.asked[g.k].showing, g.asked[g.k].refused));
    } else {
      AsItWasLeft(g.asked, g.k, w, g, c);
      var verdict, next := ChainThroughOnePass(g.asked, g.k, w.chain, w.ages, DeskOf(w, g, c), c, g.p);
      VerdictIsOnePass(g.asked[g.k], w.ages[w.chain.id], c, g.p, life, floor);
      StampFits(floor, g.p.now);
      FloorSurvivesRenaming(w.chain.name, g.p.now, read);
    }
  }

  /** The ladder with its maps of ids and its renamings does to the chain exactly what
      the life of one order says: same limit, same end. */
  lemma {:induction false} LadderLivesTheWalk(w: World, given: seq<Given>, c: Config, placed: int, first: int, read: Reader, floor: int)
    requires Runnable(c) && c.patience >= c.every && ReadsDecimals(read) && ShortEnough(floor)
    requires Shown(w, given, c) && Ticks(given, first, read, c)
    requires Knows(w, placed) && w.ages[w.chain.id].movedOn == 0
    requires Floor(w.chain.name, read) == Some(floor)
    ensures Lives(Run(w, given, c), Lived(c, w.chain.limit, floor, first - placed, SeenBy(given)), placed, read, floor)
  {
    hide *;
    if given == [] {
      LivesAtFirst(w, c, placed, first, read, floor);
    } else {
      var init, g := given[..|given| - 1], given[|given| - 1];
      LastTick(given, first, read, c, placed);
      LastPass(w, given, c, w.chain.limit, floor, first - placed);
      LadderLivesTheWalk(w, init, c, placed, first, read, floor);
      PassLivesOnePass(Run(w, init, c), g, c, Lived(c, w.chain.limit, floor, first - placed, SeenBy(init)), placed, read, floor);
    }
  }

  lemma LivesAtFirst(w: World, c: Config, placed: int, first: int, read: Reader, floor: int)
    requires Runnable(c) && Knows(w, placed) && w.ages[w.chain.id].movedOn == 0
    requires Floor(w.chain.name, read) == Some(floor)
    ensures Lives(Run(w, [], c), Lived(c, w.chain.limit, floor, first - placed, SeenBy([])), placed, read, floor)
  {
    hide Floor;
  }

  lemma LastTick(given: seq<Given>, first: int, read: Reader, c: Config, placed: int)
    requires given != [] && Ticks(given, first, read, c)
    ensures forall i :: 0 <= i < |given| ==> given[i].k < |given[i].asked|
    ensures Ticks(given[..|given| - 1], first, read, c)
    ensures var n := |given| - 1;
            given[n].p.now - placed == first - placed + n * c.every && given[n].p.read == read
  {
  }

  /** The last pass of a run, set apart from the ones before it. */
  lemma LastPass(w: World, given: seq<Given>, c: Config, start: int, floor: int, age: int)
    requires Runnable(c) && given != [] && Shown(w, given, c)
    requires forall i :: 0 <= i < |given| ==> given[i].k < |given[i].asked|
    ensures var init, g := given[..|given| - 1], given[|given| - 1];
            var before, seen := Run(w, init, c), Seen(g.asked[g.k].showing, g.asked[g.k].refused);
            && Run(w, given, c) == RunPass(before, g, c)
            && Shown(w, init, c) && g.p.number == before.passes + 1
            && (!before.chain.over ==> ShowsTheChain(g.asked, g.k, before.chain, before.ages, DeskOf(before, g, c), c, g.p))
            && Lived(c, start, floor, age, SeenBy(given)) ==
               OnePass(c, Lived(c, start, floor, age, SeenBy(init)), floor, age + |init| * c.every, seen)
  {
    hide ShowsTheChain, OnePass, RunPass;
    assert SeenBy(given)[..|given| - 1] == SeenBy(given[..|given| - 1]);
  }

  lemma AsItWasLeft(asked: seq<Asked>, k: nat, w: World, g: Given, c: Config)
    requires Runnable(c) && ShowsTheChain(asked, k, w.chain, w.ages, DeskOf(w, g, c), c, g.p)
    ensures k < |asked| && asked[k].order.name == w.chain.name && asked[k].order.limit == w.chain.limit
    ensures asked[k].order.id == w.chain.id
  {
  }

  lemma CancelledStays(c: Config, life: Life, floor: int, age: int, seen: Seen)
    requires Runnable(c) && life.cancelled
    ensures OnePass(c, life, floor, age, seen) == life
  {
  }

  lemma StampFits(floor: int, at: Nanoseconds)
    requires ShortEnough(floor)
    ensures Fits(NameFor(floor), at)
  {
    PrintIsAStamp(at);
  }

  lemma {:induction false} ShownBefore(w: World, given: seq<Given>, n: nat, c: Config)
    requires Runnable(c) && Shown(w, given, c) && n <= |given|
    ensures Shown(w, given[..n], c)
  {
    if n == |given| {
      assert given[..n] == given;
    } else {
      ShownBefore(w, given[..|given| - 1], n, c);
      assert given[..|given| - 1][..n] == given[..n];
    }
  }

  lemma LivesSoFar(w: World, given: seq<Given>, n: nat, c: Config, placed: int, first: int, read: Reader, floor: int)
    requires Runnable(c) && c.patience >= c.every && ReadsDecimals(read) && ShortEnough(floor)
    requires n <= |given| && Shown(w, given, c) && Ticks(given, first, read, c)
    requires Knows(w, placed) && w.ages[w.chain.id].movedOn == 0
    requires Floor(w.chain.name, read) == Some(floor)
    ensures var end, life := Run(w, given[..n], c).chain, Lived(c, w.chain.limit, floor, first - placed, SeenBy(given)[..n]);
            end.limit == life.limit && end.over == life.cancelled
  {
    hide Run, Lived, Floor, NameFor, Shown, Knows, ReadsDecimals;
    ShownBefore(w, given, n, c);
    assert SeenBy(given[..n]) == SeenBy(given)[..n];
    LadderLivesTheWalk(w, given[..n], c, placed, first, read, floor);
  }

  /** After this pass the chain's live order stands no lower than what the book showed or its
      floor, and not past the floor; if the pass moved it, it stands at just that price. */
  ghost predicate StandsAtTheOffer(w: World, given: seq<Given>, n: nat, c: Config, floor: int)
    requires Runnable(c) && n < |given| && given[n].k < |given[n].asked|
  {
    var a := given[n].asked[given[n].k];
    var before, after := Run(w, given[..n], c).chain, Run(w, given[..n + 1], c).chain;
    && !after.over && after.limit <= floor
    && (a.showing.Some? && !a.refused ==> after.limit >= Target(a.showing.value, floor))
    && (after.limit != before.limit ==> a.showing.Some? && after.limit == Target(a.showing.value, floor))
  }

  /** The ladder's own run, through every renaming and every new id, makes the offer arrive:
      so stands the live order after every pass within the last two intervals of patience, once
      it is an interval old. */
  lemma OfferArrivesOnEveryLatePass(w: World, given: seq<Given>, n: nat, c: Config, placed: int, first: int, read: Reader,
                                    floor: int)
    requires Runnable(c) && c.stride.ToArrive? && c.patience >= c.every && ReadsDecimals(read) && ShortEnough(floor)
    requires n < |given| && Shown(w, given, c) && Ticks(given, first, read, c)
    requires Knows(w, placed) && w.ages[w.chain.id].movedOn == 0
    requires Floor(w.chain.name, read) == Some(floor) && w.chain.limit <= floor
    requires c.patience - 2 * c.every < first - placed + n * c.every <= c.patience
    requires first - placed + n * c.every >= c.every
    ensures StandsAtTheOffer(w, given, n, c, floor)
  {
    hide Run, Lived, Floor, NameFor, Shown, ReadsDecimals, RunPass, Target, Knows;
    var passes := SeenBy(given);
    ArrivesInTheLastTwoIntervals(c, w.chain.limit, floor, first - placed, passes, n);
    LifeIsBounded(c, w.chain.limit, floor, first - placed, passes[..n + 1]);
    LivesSoFar(w, given, n, c, placed, first, read, floor);
    LivesSoFar(w, given, n + 1, c, placed, first, read, floor);
  }

  /** End to end: with two intervals of patience, a run that outlives it has such a pass as its
      last one in time, and the pass after that cancels the order. */
  lemma OfferArrivesInTheRun(w: World, given: seq<Given>, c: Config, placed: int, first: int, read: Reader, floor: int)
    returns (last: nat)
    requires Runnable(c) && c.stride.ToArrive? && c.patience >= 2 * c.every && ReadsDecimals(read) && ShortEnough(floor)
    requires given != [] && Shown(w, given, c) && Ticks(given, first, read, c)
    requires Knows(w, placed) && w.ages[w.chain.id].movedOn == 0
    requires Floor(w.chain.name, read) == Some(floor) && w.chain.limit <= floor
    requires 0 <= first - placed <= c.patience < first - placed + (|given| - 1) * c.every
    ensures last + 1 < |given|
    ensures first - placed + last * c.every <= c.patience < first - placed + (last + 1) * c.every
    ensures StandsAtTheOffer(w, given, last, c, floor)
    ensures Run(w, given[..last + 2], c).chain.over
  {
    hide Run, Lived, Floor, NameFor, Shown, ReadsDecimals, RunPass, Target, Knows, StandsAtTheOffer;
    last := ArrivesBeforePatience(c, w.chain.limit, floor, first - placed, SeenBy(given));
    assert first - placed + last * c.every > c.patience - c.every >= c.every by {
      assert (last + 1) * c.every == last * c.every + c.every;
    }
    OfferArrivesOnEveryLatePass(w, given, last, c, placed, first, read, floor);
    LivesSoFar(w, given, last + 2, c, placed, first, read, floor);
  }

  /** A chain the ladder has not seen begins with the broker's word for when its order was
      submitted, however long ago that is: the pass does to it what it would do to a chain
      known to have been placed then, and whatever goes on living carries that time. */
  lemma FirstSight(a: Asked, d: Desk, c: Config, p: Pass)
    requires Runnable(c) && c.patience >= c.every && OnlyPatience(a, d, p) && a.order.id !in d.ages
    requires p.number > 0 && a.becomes != "" && a.becomes != a.order.id
    ensures var placed := a.order.submitted.value;
            var (verdict, after) := Judge(a, d, c, p);
            && verdict == Judge(a, d.(ages := d.ages[a.order.id := Age(placed, 0)]), c, p).0
            && (verdict.CancelledOnPatience? <==> p.now - placed > c.patience)
            && (verdict.TooYoung? <==> p.now - placed < c.every)
            && (verdict in {TooYoung, LeftAlone} ==> a.order.id in after.ages && after.ages[a.order.id] == Age(placed, 0))
            && (verdict.Moved? ==> a.becomes in after.ages && after.ages[a.becomes] == Age(placed, p.number))
  {
    hide Next, Floor;
  }

  // ---------- fills anywhere along a chain ----------

  /** However the passes are spaced and whatever the book does, the live order of a chain
      never stands past the floor its first name carried, and still carries it. */
  lemma {:induction false} NeverPastTheFloor(w: World, given: seq<Given>, c: Config, placed: int, read: Reader, floor: int)
    requires Runnable(c) && c.patience >= c.every && ReadsDecimals(read) && ShortEnough(floor)
    requires Shown(w, given, c) && Knows(w, placed) && forall i :: 0 <= i < |given| ==> given[i].p.read == read
    requires Floor(w.chain.name, read) == Some(floor) && w.chain.limit <= floor
    ensures var chain := Run(w, given, c).chain;
            Floor(chain.name, read) == Some(floor) && w.chain.limit <= chain.limit <= floor
  {
    if given == [] {
    } else {
      hide Judge, Judged, Patience, ShowsTheChain, Remembered, ChainAfter, Floor, NameFor, ReadsDecimals, Knows;
      var init, g := given[..|given| - 1], given[|given| - 1];
      var before := Run(w, init, c);
      NeverPastTheFloor(w, init, c, placed, read, floor);
      AgeSurvivesReplacement(w, init, c, placed);
      if !before.chain.over {
        KnownWhileItLives(w, init, c, placed);
        OnePassUnderTheFloor(before, g, c, placed, read, floor);
      }
    }
  }

  lemma KnownWhileItLives(w: World, given: seq<Given>, c: Config, placed: int)
    requires Runnable(c) && c.patience >= c.every && Shown(w, given, c) && Knows(w, placed)
    requires !Run(w, given, c).chain.over
    ensures Knows(Run(w, given, c), placed)
  {
    AgeSurvivesReplacement(w, given, c, placed);
  }

  lemma OnePassUnderTheFloor(w: World, g: Given, c: Config, placed: int, read: Reader, floor: int)
    requires Runnable(c) && c.patience >= c.every && ReadsDecimals(read) && ShortEnough(floor)
    requires Knows(w, placed) && g.p.read == read && g.p.number == w.passes + 1
    requires ShowsTheChain(g.asked, g.k, w.chain, w.ages, DeskOf(w, g, c), c, g.p)
    requires Floor(w.chain.name, read) == Some(floor) && w.chain.limit <= floor
    ensures var chain := RunPass(w, g, c).chain;
            Floor(chain.name, read) == Some(floor) && w.chain.limit <= chain.limit <= floor
  {
    hide Judge, Judged, ShowsTheChain, Remembered, Floor, NameFor, ReadsDecimals, NameCarrying, Next;
    AsItWasLeft(g.asked, g.k, w, g, c);
    var verdict, next := ChainThroughOnePass(g.asked, g.k, w.chain, w.ages, DeskOf(w, g, c), c, g.p);
    if verdict.Moved? {
      var a := g.asked[g.k];
      WalkIsBounded(c, a.order.limit, a.showing, floor, a.refused, g.p.now - placed);
      StampFits(floor, g.p.now);
      FloorSurvivesRenaming(w.chain.name, g.p.now, read);
    }
  }

  /** A fill, and after how many passes it was made. */
  datatype Made = Made(fill: TooBig.Fill, after: nat)

  /** Fills of the chain's live order: each after some of the passes, at the limit the order
      then had or better, and together no more than what rested at first. */
  ghost predicate FilledAlongTheChain(order: Order, w: World, given: seq<Given>, c: Config, made: seq<Made>)
    requires Runnable(c)
  {
    && TooBig.Sets(FillsOf(made)) <= Remaining(order)
    && forall i :: 0 <= i < |made| ==>
         && made[i].fill.sets >= 0.0 && made[i].after <= |given|
         && made[i].fill.price <= Run(w, given[..made[i].after], c).chain.limit as real / 100.0
  }

  function FillsOf(made: seq<Made>): (fills: seq<TooBig.Fill>)
    ensures |fills| == |made| && forall i :: 0 <= i < |made| ==> fills[i] == made[i].fill
  {
    if made == [] then [] else FillsOf(made[..|made| - 1]) + [made[|made| - 1].fill]
  }

  /** The loss bound over a whole chain. Whatever fills are made of the live order, before,
      between and after any of the passes, through every replacement and renaming, they lose
      together no more than the worst case worked out for the order as it was first seen, at
      every settlement - for an order of one series. For any other it is so for a number that
      `TooBig.BoundsExactlyWhen` says is a bound. */
  lemma LossOverTheWholeChain(order: Order, worst: real, w: World, given: seq<Given>, c: Config, placed: int, read: Reader,
                              floor: int, made: seq<Made>, prices: Prices)
    requires Runnable(c) && c.patience >= c.every && ReadsDecimals(read) && ShortEnough(floor)
    requires Shown(w, given, c) && Knows(w, placed) && forall i :: 0 <= i < |given| ==> given[i].p.read == read
    requires order.name == w.chain.name && Floor(order.name, read) == Some(floor) && w.chain.limit <= floor
    requires TooBig.Known(order) && worst <= 0.0
    requires (TooBig.OneSeries(order) && TooBig.IsWorstFill(order, TooBig.WorstPrice(order, read), worst)) ||
             TooBig.BoundsEverySettlement(order, TooBig.WorstPrice(order, read), worst)
    requires FilledAlongTheChain(order, w, given, c, made) && NonNegative(prices)
    ensures TooBig.FillsWorth(order, FillsOf(made), prices) >= worst
  {
    hide TooBig.FillsWorth, TooBig.IsWorstFill, TooBig.BoundsEverySettlement, TooBig.OneSeries, TooBig.Known, TooBig.Sets,
         NonNegative, Floor, NameFor, ReadsDecimals, Run, Shown, Knows;
    forall i | 0 <= i < |made| ensures made[i].fill.price <= TooBig.WorstPrice(order, read) {
      ShownBefore(w, given, made[i].after, c);
      NeverPastTheFloor(w, given[..made[i].after], c, placed, read, floor);
    }
    var price := TooBig.WorstPrice(order, read);
    if !TooBig.BoundsEverySettlement(order, price, worst) {
      TooBig.OneSeriesIsBounded(order, price, worst);
    }
    TooBig.LossOverAWholeWalk(order, price, worst, FillsOf(made), prices);
  }

  /** And the verdict on the order does not move along the way: under the name and at the
      limit it has after any of the passes it has the same worst case, and is unbounded
      exactly when it was at first. */
  lemma VerdictSurvivesTheWalk(order: Order, worst: real, w: World, given: seq<Given>, c: Config, placed: int, read: Reader,
                               floor: int)
    requires Runnable(c) && c.patience >= c.every && ReadsDecimals(read) && ShortEnough(floor)
    requires Shown(w, given, c) && Knows(w, placed) && forall i :: 0 <= i < |given| ==> given[i].p.read == read
    requires order.name == w.chain.name && Floor(order.name, read) == Some(floor) && w.chain.limit <= floor
    requires TooBig.Known(order) && TooBig.IsWorstFill(order, TooBig.WorstPrice(order, read), worst)
    ensures var chain := Run(w, given, c).chain;
            var later := order.(name := chain.name, limit := chain.limit);
            && TooBig.Known(later) && TooBig.IsWorstFill(later, TooBig.WorstPrice(later, read), worst)
            && TooBig.IsUnbounded(later) == TooBig.IsUnbounded(order)
  {
    hide TooBig.IsWorstFill, TooBig.IsUnbounded, Floor, NameFor, ReadsDecimals, Run, Shown, Knows;
    NeverPastTheFloor(w, given, c, placed, read, floor);
    var chain := Run(w, given, c).chain;
    TooBig.VerdictIgnoresTheName(order, order.(name := chain.name, limit := chain.limit), read, worst);
  }

  // ---------- what a pass asks ----------

  /** What the market and the broker say about one order. */
  datatype Market = Market(quotes: Quotes, refused: bool, becomes: string)

  /** The answers about an order are the ones worked out for it. */
  ghost predicate Answers(a: Asked, order: Order, market: Market, read: Reader) {
    && a.order == order && a.refused == market.refused && a.becomes == market.becomes
    && (a.worst.Some? <==> TooBig.Known(order))
    && (a.worst.Some? ==> a.worst.value <= 0.0)
    && (a.worst.Some? && !TooBig.IsUnbounded(order) ==>
          TooBig.IsWorstFill(order, TooBig.WorstPrice(order, read), a.worst.value))
    && (a.showing.Some? <==> TwoSided(order.legs, market.quotes))
    && (a.showing.Some? ==> a.showing.value == Round(Total(order.legs, market.quotes)))
  }

  /** What the book risks is worked out from the positions: an exact number while every loss
      has a floor, and full exactly when one has none. */
  ghost predicate RiskOf(ps: seq<Exposure.Position>, r: Risk) {
    && (r.Full? <==> !Groups.NoSeriesNetShortCalls(Exposure.Lines(ps)))
    && (r.Amount? ==> Exposure.IsRisk(Exposure.Lines(ps), r.value))
  }

  /** Asks what is to be asked about one order. */
  method AskAbout(order: Order, market: Market, read: Reader) returns (a: Asked)
    ensures Answers(a, order, market, read)
  {
    hide TooBig.IsWorstFill, TooBig.WorstPrice, TooBig.IsUnbounded, NetCalls, Total;
    var worst := TooBig.WorstCase(order, read);
    var showing := Showing(order.legs, market.quotes);
    if worst.Some? {
      TooBig.UnboundedIsTheSlope(order);
    }
    a := Asked(order, worst, showing, market.refused, market.becomes);
  }

  /** Asks what the open positions risk. */
  method WhatIsRisked(ps: seq<Exposure.Position>) returns (r: Risk)
    ensures RiskOf(ps, r)
  {
    hide Groups.NoSeriesNetShortCalls, Exposure.IsRisk, Exposure.Lines;
    var risk := Exposure.AtRisk(ps);
    var without := Exposure.WithoutAFloor(ps);
    r := if |without| > 0 then Full else Amount(risk);
  }

  ghost predicate AllAnswers(asked: seq<Asked>, orders: seq<Order>, markets: seq<Market>, read: Reader) {
    && |asked| == |orders| == |markets|
    && forall i :: 0 <= i < |asked| ==> Answers(asked[i], orders[i], markets[i], read)
  }

  method AskAboutAll(orders: seq<Order>, markets: seq<Market>, read: Reader) returns (asked: seq<Asked>)
    requires |orders| == |markets|
    ensures AllAnswers(asked, orders, markets, read)
  {
    hide Answers;
    asked := [];
    for i := 0 to |orders|
      invariant |asked| == i
      invariant forall j :: 0 <= j < i ==> Answers(asked[j], orders[j], markets[j], read)
    {
      var a := AskAbout(orders[i], markets[i], read);
      asked := asked + [a];
    }
  }

  lemma AnswersAreSound(asked: seq<Asked>, orders: seq<Order>, markets: seq<Market>, read: Reader)
    requires AllAnswers(asked, orders, markets, read)
    ensures Sound(asked)
  {
    hide TooBig.Known, TooBig.IsWorstFill, TooBig.WorstPrice, TooBig.IsUnbounded, TwoSided, Total;
    forall i | 0 <= i < |asked| ensures Answers(asked[i], orders[i], markets[i], read) {
    }
  }

  /** What the pass accepts expires series by series, one order one series. */
  ghost predicate AcceptsOneSeriesEach(asked: seq<Asked>, d: Desk, c: Config, p: Pass)
    requires Runnable(c)
  {
    forall i :: 0 <= i < |asked| && AcceptedAt(asked, i, d, c, p) ==> TooBig.OneSeries(asked[i].order)
  }

  lemma AnswersAreBounds(asked: seq<Asked>, orders: seq<Order>, markets: seq<Market>, d: Desk, c: Config, p: Pass)
    requires Runnable(c) && Sound(asked)
    requires AllAnswers(asked, orders, markets, p.read) && AcceptsOneSeriesEach(asked, d, c, p)
    ensures Bounding(asked, d, c, p)
  {
    hide Sound, TooBig.IsWorstFill, TooBig.BoundsEverySettlement, TooBig.WorstPrice, TooBig.IsUnbounded, TooBig.OneSeries,
         TwoSided, Total, Judged;
    forall i | 0 <= i < |asked| && AcceptedAt(asked, i, d, c, p)
      ensures TooBig.Known(asked[i].order) && asked[i].worst.Some?
      ensures TooBig.BoundsEverySettlement(asked[i].order, TooBig.WorstPrice(asked[i].order, p.read), asked[i].worst.value)
    {
      assert Answers(asked[i], orders[i], markets[i], p.read);
      TooBig.OneSeriesIsBounded(asked[i].order, TooBig.WorstPrice(asked[i].order, p.read), asked[i].worst.value);
    }
  }

  /** A whole pass, from what the broker lists: the positions say what is risked already,
      each order is asked about, and the ladder judges them in the order listed. */
  method Watch(ladder: Ladder, orders: seq<Order>, markets: seq<Market>, positions: seq<Exposure.Position>, now: Nanoseconds,
               fused: bool, ceiling: Option<real>, book: Option<real>, read: Reader)
      returns (verdicts: seq<Verdict>, asked: seq<Asked>, before: Risk, after: Risk)
    requires ladder.Valid() && |orders| == |markets|
    modifies ladder
    ensures ladder.Valid() && ladder.passes == old(ladder.passes) + 1
    ensures AllAnswers(asked, orders, markets, read) && RiskOf(positions, before)
    ensures var p := Pass(now, ladder.passes, fused, ceiling, book, read);
            var d := Desk(Remembered(old(ladder.ages), asked, now, ladder.config), before);
            && Judged(asked, d, ladder.config, p) == Desk(ladder.ages, after)
            && |verdicts| == |asked|
            && forall i :: 0 <= i < |asked| ==>
                 verdicts[i] == Judge(asked[i], Judged(asked[..i], d, ladder.config, p), ladder.config, p).0
  {
    hide AllAnswers, RiskOf, Judged, Judge, Remembered;
    before := WhatIsRisked(positions);
    asked := AskAboutAll(orders, markets, read);
    verdicts, after := ladder.Step(asked, now, fused, ceiling, book, before, read);
  }

  /** Over the book already, nothing more is taken. */
  lemma {:induction false} OverTheBookTakesNothing(asked: seq<Asked>, n: nat, d: Desk, c: Config, p: Pass)
    requires Runnable(c) && n <= |asked| && Sound(asked)
    requires p.book.Some? && d.atRisk.Amount? && d.atRisk.value > p.book.value
    ensures Judged(asked[..n], d, c, p).atRisk == d.atRisk
    ensures n < |asked| ==> !AcceptedAt(asked, n, d, c, p)
  {
    if n == 0 {
      assert asked[..0] == [];
    } else {
      OverTheBookTakesNothing(asked, n - 1, d, c, p);
      JudgedStep(asked, n - 1, d, c, p);
    }
    if n < |asked| {
      PastTheBookNothingFits(asked[n], Judged(asked[..n], d, c, p), p);
    }
  }

  /** With a position whose loss has no floor, or past the book already, no order of known
      worst case is accepted in the pass. */
  lemma NoRoomTakesNothing(positions: seq<Exposure.Position>, asked: seq<Asked>, d: Desk, c: Config, p: Pass)
    requires Runnable(c) && p.book.Some? && RiskOf(positions, d.atRisk) && Sound(asked)
    requires !Groups.NoSeriesNetShortCalls(Exposure.Lines(positions)) || d.atRisk.value > p.book.value
    ensures forall i :: 0 <= i < |asked| ==> !AcceptedAt(asked, i, d, c, p)
  {
    hide Sound, Exposure.IsRisk, Exposure.Lines, Groups.NoSeriesNetShortCalls, AcceptedAt, Judged;
    forall i | 0 <= i < |asked| ensures !AcceptedAt(asked, i, d, c, p) {
      if d.atRisk.Full? {
        FullTakesNothing(asked, i, d, c, p);
      } else {
        OverTheBookTakesNothing(asked, i, d, c, p);
      }
    }
  }

  /** The exposure of a pass, from the positions and the orders themselves. While every open
      loss has a floor and the account is within its book, and every order it accepts is of one
      series, what is open at any prices, with everything the accepted orders may yet become,
      loses no more than the book, or than the book and less than one set of the order that
      crossed. */
  lemma ExposureOfAPass(positions: seq<Exposure.Position>, orders: seq<Order>, markets: seq<Market>, asked: seq<Asked>,
                        d: Desk, c: Config, p: Pass, fills: seq<seq<TooBig.Fill>>, at: seq<Prices>, prices: Prices,
                        some: set<Series>)
    requires Runnable(c) && p.book.Some? && RiskOf(positions, d.atRisk) && AllAnswers(asked, orders, markets, p.read)
    requires AcceptsOneSeriesEach(asked, d, c, p)
    requires Groups.NoSeriesNetShortCalls(Exposure.Lines(positions)) && d.atRisk.value <= p.book.value
    requires NonNegative(prices) && some <= Groups.SeriesOf(Exposure.Lines(positions)) && MayFill(asked, fills, at, p.read)
    ensures AllWithinTheBook(Exposure.Lines(positions), asked, d, c, p, fills, at, prices, some)
  {
    hide Sound, Bounding, AllAnswers, AcceptsOneSeriesEach, Fillable, RiskOf, Exposure.IsRisk, Exposure.Lines, NonNegative,
         Groups.NoSeriesNetShortCalls, Groups.SeriesOf, Groups.WorthIn, AcceptedWorth, WithinTheBook;
    AnswersAreSound(asked, orders, markets, p.read);
    AnswersAreBounds(asked, orders, markets, d, c, p);
    TheRiskIs(positions, d.atRisk);
    ExposureOfTheAccount(Exposure.Lines(positions), d.atRisk.value, asked, d, c, p, fills, at, prices, some);
  }

  /** What is open, at these prices, and the accepted orders, so filled and so settled, are
      within the book together. */
  ghost predicate AllWithinTheBook(lines: seq<Groups.Line>, asked: seq<Asked>, d: Desk, c: Config, p: Pass,
                                   fills: seq<seq<TooBig.Fill>>, at: seq<Prices>, prices: Prices, some: set<Series>)
    requires Runnable(c) && p.book.Some?
  {
    && Sound(asked) && |asked| == |fills| == |at|
    && WithinTheBook(Groups.WorthIn(lines, some, prices) + AcceptedWorth(asked, |asked|, d, c, p, fills, at), asked, d, c, p)
  }

  lemma TheRiskIs(positions: seq<Exposure.Position>, r: Risk)
    requires RiskOf(positions, r) && Groups.NoSeriesNetShortCalls(Exposure.Lines(positions))
    ensures r.Amount? && Exposure.IsRisk(Exposure.Lines(positions), r.value)
  {
  }

  /** An order of two series may pass any book it has the price for, though its loss has no
      floor: a pass with nothing at risk accepts the calendar, whose fills lose more than any
      bound at some prices. */
  lemma ACalendarPassesTheBook(c: Config, p: Pass, bound: real) returns (asked: seq<Asked>, at: seq<Prices>)
    requires Runnable(c) && !p.fused && p.ceiling.None? && p.book.Some? && p.book.value >= 50.0
    ensures AllAnswers(asked, [TooBig.CALENDAR], [Market(map[], false, "")], p.read) && Sound(asked)
    ensures var d, fills := Desk(map[], Amount(0.0)), [[TooBig.Fill(1.0, 0.5)]];
            && RiskOf([], d.atRisk) && AcceptedAt(asked, 0, d, c, p) && MayFill(asked, fills, at, p.read)
            && AcceptedWorth(asked, 1, d, c, p, fills, at) < bound
  {
    var order, d, fill := TooBig.CALENDAR, Desk(map[], Amount(0.0)), TooBig.Fill(1.0, 0.5);
    asked := [Asked(order, Some(-50.0), None, false, "")];
    TooBig.TheCalendarIsJudgedAtOnePrice(p.read);
    TooBig.NetShortIsUnbounded(order, 0.5, bound);
    NothingIsRisked();
    hide TooBig.FillWorth, TooBig.IsWorstFill, TooBig.WorstPrice, TooBig.IsUnbounded, TooBig.SomeSeriesNetShort, RiskOf;
    var prices: Prices :| NonNegative(prices) && TooBig.FillWorth(order, 1.0, 0.5, prices) < bound;
    at := [prices];
    assert asked[..0] == [];
    OneAccepted(asked, d, c, p, fill, prices);
  }

  lemma OneAccepted(asked: seq<Asked>, d: Desk, c: Config, p: Pass, fill: TooBig.Fill, prices: Prices)
    requires Runnable(c) && Sound(asked) && |asked| == 1 && AcceptedAt(asked, 0, d, c, p)
    requires TooBig.Known(asked[0].order)
    ensures AcceptedWorth(asked, 1, d, c, p, [[fill]], [prices]) ==
            TooBig.FillWorth(asked[0].order, fill.sets, fill.price, prices)
  {
    hide TooBig.FillWorth, AcceptedAt;
    assert AcceptedWorth(asked, 0, d, c, p, [[fill]], [prices]) == 0.0;
    assert [fill][..0] == [] && TooBig.FillsWorth(asked[0].order, [], prices) == 0.0;
  }

  lemma NothingIsRisked()
    ensures RiskOf([], Amount(0.0))
  {
    Groups.NoSeriesIsNothing([], TooBig.AtOnce(0.0));
    assert NonNegative(TooBig.AtOnce(0.0)) && Groups.WorthIn([], {}, TooBig.AtOnce(0.0)) == -0.0;
  }
}
