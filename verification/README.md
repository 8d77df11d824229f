# What the broker, the ladder and the protocols keep

A Dafny model of three parts of the repository, with proofs about whole runs of each.

**The paper broker** (`testbed/proxy`). A book holds cash, signed positions and standing
orders. Collateral is the least value of a piecewise linear payoff, found by probing strikes;
expiry exercises, assigns or settles in cash; a file mirrors the book; a matcher fills it from
sizes shown once for everybody. The pieces meet in `Expiry.Solvency` and
`Expiry.SolventThroughout`: an account opened with no debt, traded in any way at all and settled
in any order, afterwards or in between, cannot end below zero, but for half a dollar on each
contract settled off the cent.

**The execution ladder** (`golang/internal/execution`, `marketdata/exposure.go`). It walks the
limits of resting orders toward the book, under a floor carried in the order's name, and bounds
what they can lose. Its guarantees are about whole runs: `Ladder.OfferArrivesInTheRun` follows
one chain through every renaming and every new id, `Ladder.LossOverTheWholeChain` bounds what all
its fills can lose, and `Ladder.ExposureOfAPass` adds what is open to everything the accepted
orders may yet become, with every series settled at a price of its own. Both are about orders of
one series each; `TooBig.BoundsExactlyWhen` says what of the others.

**Four small concurrent protocols**: the priority gate (`upstream.go`), the long-poll mailbox,
the harness's claim on starting a turn, and the single-flight answer cache (`recent.go`). Each
is a state machine whose steps are the sections under its lock, with what the callers are about
added as model state, and an invariant over every interleaving.

## How it is built

| file | what is in it |
|---|---|
| `Sums`, `Payoff`, `Contracts`, `Groups` | sums over sequences and maps; option payoffs and where their minima are; contracts, series, prices; lines grouped by series |
| `Risk`, `Exposure`, `TooBig` | the broker's worst case and collateral; the account's exposure; the worst case of one resting order |
| `Ledger`, `Account`, `Book` | the state of an account and its algebra; what every operation makes of it; the class that changes its fields in place, proved to do exactly that |
| `Reserves`, `Accounting`, `Expiry`, `Store`, `Match` | collateral over runs; the ledger identity and chains of moved orders; settlement and solvency; saving and restarts; the matcher |
| `Decimal`, `Reservation`, `Orders`, `Walk`, `Ladder` | printing and reading hundredths; the floor in a name; listed orders; one order's walk; a pass over all of them and many passes |
| `Gate`, `Mailbox`, `Turns`, `Recent` | the four protocols |

Code that changes fields under a lock is a class whose methods are proved against functions of
its state; loops are methods with invariants; pure expressions are functions. Theorems over
runs are about the functions, and each method's contract is the bridge. The identifiers the
source draws at random, what quotes, brokers and agents answer, and the times at which things
happen are parameters, so the theorems hold for every choice of them.

Money is real numbers, quantities are integers, and rounding appears only where the code rounds
to the cent. The tolerances of a billionth are zero. A contract symbol is modelled as read, and
minus infinity is a constructor.

Eight things a reader of the code may not expect, each with its proof:

- The harness calls a turn stale, and lets it be taken over, after any failure to say something
  into it, although its comment speaks of a turn proven over. `Turns.ALiveTurnIsReplacedExactlyWhen`
  says of every event in every reachable state whether it writes a name over a turn at work;
  `Turns.AClaimReplacesALiveTurnExactlyWhen` says it at the claim, for an opener nothing interrupts.
  Callers that failed because the turn had ended never do (`Turns.NoLiveTurnIsReplaced`);
  `Turns.AnUnreachableTurnIsReplaced` is a run with one that failed for another reason.
- One remembered completion is not always enough. It is lost exactly when, before its opener has
  looked, a completion comes that is neither its own nor the running turn's, and overwrites it:
  `Turns.LostExactlyWhenOvertaken` for every event, `Turns.KeptExactlyWhenNothingIsOvertaken` for
  every run. Completions in the order of the turns never do that
  (`Turns.InTurnOrderNothingIsOvertaken`); `Turns.OutOfOrderACompletionIsLost` and
  `Turns.BetweenNamingAndLookingACompletionIsLost` are runs in which one does, before the name is
  published and after.
- The worst case of a resting order takes one price for all its legs, although its comment calls
  the points it looks at exact, and so does the check for a loss without a floor. For an order of
  one series both are exact (`TooBig.OneSeriesIsBounded`, `TooBig.UnboundedMeansNetShort`). An order
  of several is bounded by a number exactly when no series of it is net short calls and the least
  values of its series add up to enough (`TooBig.BoundsExactlyWhen`); a calendar passes any book it
  has the price for (`Ladder.ACalendarPassesTheBook`), though the account's own exposure would call
  the same legs a loss without a floor.
- Off the cent grid a settlement is rounded, which may cost half a dollar a contract and no more:
  `Expiry.PaymentIsFair`, `Expiry.HalfADollarIsTaken`.
- A renaming drops a floor that leaves no room: `Reservation.FloorSurvivesRenaming` is an
  if-and-only-if, and `Reservation.ALongestNameLosesItsFloor` is a name of 128 characters that
  loses its floor to every stamp.
- Rounding can take a step of half a hundredth back: `Walk.StepGainsGround` says exactly when.
- The size on the book is counted per leg. An order that repeats a side of a contract overdraws
  it: `Match.RepeatedLegsOverdraw`.
- The file never rewrites an order's size, legs or number; `Store.FixedColumnsNeverChange` is why
  that is enough.

## Model

| member | source | states |
|---|---|---|
| Payoff.LinearBetweenStrikes | testbed/proxy/risk.go:1-32 | between two neighbouring strikes the value of any group of options is one straight line |
| Payoff.SlopePastEveryStrike | testbed/proxy/risk.go:213-225 | past every strike the slope is a hundred times the calls bought less the calls sold |
| Payoff.ProbesSuffice | testbed/proxy/risk.go:227-243 | with calls not net sold, for every price at or above zero some probe (zero or a strike) is at least as bad |
| Payoff.FallsForever | testbed/proxy/risk.go:225-227 | with calls net sold, for every bound there is a price at which the group is worth less |
| Payoff.HighestStrike | testbed/proxy/risk.go:213-224 | the far point of a group is at or above every strike in it |
| Groups.AddSeries | testbed/proxy/risk.go:173-178 | the value over a set of series is the value over the rest plus one group's own, at that series' own price |
| Groups.NetShortCallsSinkForever | testbed/proxy/risk.go:225-227 | one series with calls net sold takes the whole below any bound |
| Groups.ProbesFindTheLeast | testbed/proxy/risk.go:230-243 | the least over all the probes is the least over all prices, and is attained |
| Groups.LeastOverOneMore | testbed/proxy/risk.go:244-244 | minima of separate series add up: the sum is the least over independent prices, attained at the prices of the parts |
| Groups.LeastOfAll | testbed/proxy/risk.go:213-244 | series with calls nowhere net sold have a least worth together over independent prices, reached with each at a probe of its own |
| Groups.LeastAtPoints | testbed/proxy/risk.go:230-243 | the loop returns the least value over the points, and one of them attains it |
| Risk.WorstIsUnique | testbed/proxy/risk.go:171-178 | the reference worst case, a statement about all prices and nothing else, is one number |
| Risk.Grouped | testbed/proxy/risk.go:186-210 | the map of groups holds every option once under its own root and expiry; an unreadable symbol is an error, shares are not |
| Risk.WorstOfGroup | testbed/proxy/risk.go:212-243 | a group is unbounded exactly when its calls are net sold, and otherwise gets its true least value |
| Risk.WorstCase | testbed/proxy/risk.go:179-246 | the least value over every independent choice of a price per series, attained; no ceiling exactly when some series sinks below every bound; an error exactly when a symbol cannot be read |
| Risk.Requirement | testbed/proxy/risk.go:264-293 | cash at or above the requirement is exactly the cash with which the account, half as much again for short shares set aside, is not below zero at any settlement; no amount suffices exactly when the loss has no ceiling |
| Risk.NothingCoversNoCeiling | testbed/proxy/risk.go:271-276 | no cash covers a book whose value has no least |
| Risk.NetCallsBySeries | testbed/proxy/risk.go:115-136 | the groups hold calls bought less calls sold, for exactly the series there are |
| Risk.Unbounded | testbed/proxy/risk.go:109-153 | a cause is named exactly when the loss has no ceiling, and the series named has calls net sold |
| Risk.BoundedWhenNothingIsNamed | testbed/proxy/risk.go:151-152 | with calls net sold nowhere the value has a floor |
| Exposure.WorstAtExpiry | golang/internal/marketdata/exposure.go:85-120 | the least of one group over all prices, money already paid included, when its calls are not net sold |
| Exposure.AtRisk | golang/internal/marketdata/exposure.go:21-43 | when no series is net short calls, the risk bounds the loss of every subset of series at every independent choice of prices, and some choice attains it |
| Exposure.WithoutAFloor | golang/internal/marketdata/exposure.go:58-81 | names nothing exactly when no series is net short calls; everything named is, and then the loss passes every bound |
| Exposure.NetBySeries | golang/internal/marketdata/exposure.go:59-73 | net calls per series, and the order in which their first call came |
| Decimal.HundredthsReadBack | golang/internal/execution/reservation.go:31-33 | a price printed with two decimals reads back as the same number of hundredths, sign included |
| Decimal.PrintReadBack | golang/internal/execution/reservation.go:50-77 | a whole number printed reads back as itself |
| Reservation.NameForReadsBack | golang/internal/execution/reservation.go:31-33 | the floor read from the name made for a floor is that floor |
| Reservation.FloorSurvivesRenaming | golang/internal/execution/reservation.go:50-77 | renaming keeps the floor exactly when the whole name fits with its stamp, or the floor alone does, or there was none |
| Reservation.NameNeverTooLong | golang/internal/execution/reservation.go:22-77 | whatever the name and the moment, the new name is at most 128 characters |
| Reservation.NamesDiffer | golang/internal/execution/reservation.go:35-50 | names given at different moments differ |
| Reservation.RenamingTwiceExactlyWhen | golang/internal/execution/reservation.go:50-77 | renaming twice is renaming once at the second moment exactly when the second stamp makes no room for more than the first one left |
| Reservation.RenamingTwiceIsRenamingOnce | golang/internal/execution/reservation.go:50-66 | stamps do not pile up: with moments in their order, renaming twice is renaming once at the later one |
| Reservation.ALongestNameLosesItsFloor | golang/internal/execution/reservation.go:60-77 | there is a name of 128 characters that carries a floor and loses it to a renaming at any moment |
| Reservation.FloorSurvivesAnyWalk | golang/internal/execution/reservation.go:50-114 | through any number of renamings at any moments a floor short enough to print is read as it was |
| TooBig.OnlyCloses | golang/internal/execution/toobig.go:25-36 | true exactly when there are legs and every one says it closes |
| TooBig.OnlyOpens | golang/internal/execution/toobig.go:45-56 | true exactly when there are legs and every one says it opens |
| TooBig.UnstatedIsNeither | golang/internal/execution/toobig.go:14-45 | an order with a leg that says nothing is neither closing nor opening |
| TooBig.WorstCase | golang/internal/execution/toobig.go:101-175 | known exactly when the order can be read; with calls not net sold, the loss at the floor's price bounds every settlement at one price for all the legs, and is reached unless nothing can be lost |
| TooBig.OneSeriesIsBounded | golang/internal/execution/toobig.go:101-175 | for an order of one series that worst case bounds the loss at every choice of prices |
| TooBig.BoundsExactlyWhen | golang/internal/execution/toobig.go:144-175 | a number bounds the loss of an order at every choice of one price for each series exactly when no series of it is net short calls and the least values of its series, each at a probe of its own, less the price paid, add up to no less |
| TooBig.NetShortIsUnbounded | golang/internal/execution/toobig.go:144-175 | an order with a series net short calls loses more than any bound at some prices, whatever its worst case is said to be |
| TooBig.TheCalendarIsJudgedAtOnePrice | golang/internal/execution/toobig.go:70-175 | a call sold for one day and bought for the next can be read, is not called unbounded, has the price paid as its worst case, and has a series net short calls |
| TooBig.WorstFillIsUnique | golang/internal/execution/toobig.go:90-101 | the worst case of an order at a price is one number |
| TooBig.Unbounded | golang/internal/execution/toobig.go:70-88 | true exactly when the legs, as sized, leave calls net sold |
| TooBig.UnboundedIsTheSlope | golang/internal/execution/toobig.go:70-88 | the sign of the raw sum is the slope of the payoff of everything that rests |
| TooBig.UnboundedMeansNetShort | golang/internal/execution/toobig.go:70-88 | what is called unbounded has a series net short calls, and for an order of one series the converse holds |
| TooBig.UnboundedLosesForever | golang/internal/execution/toobig.go:58-88 | an unbounded order loses more than any bound at some one price for all its legs |
| TooBig.LossOverAWholeWalk | golang/internal/execution/toobig.go:101-175 | fills in any parts, each at or under a price, together at most what rested, lose together no more than a bound on what rested at that price, at whatever price each series settles |
| TooBig.VerdictIgnoresTheName | golang/internal/execution/toobig.go:90-101 | an order renamed and moved, with the same floor, has the same worst case and is unbounded exactly when it was |
| TooBig.VerdictSurvivesConceding | golang/internal/execution/execution.go:621-709 | a move that concedes the limit and keeps the floor in the name changes neither the worst case nor whether the order is unbounded |
| Walk.Showing | golang/internal/execution/execution.go:737-770 | a price exactly when every leg is quoted on both sides: asks of what is bought less bids of what is sold, to the hundredth |
| Walk.RoundTripNeverPays | golang/internal/execution/execution.go:737-770 | at uncrossed quotes a structure and its mirror, as shown and rounded, never add up to a payment |
| Walk.TowardStaysBetween | golang/internal/execution/execution.go:774-783 | a step stays between the limit and the target, and within one step's distance it lands on the target |
| Walk.StepGainsGround | golang/internal/execution/execution.go:774-794 | a step moves the limit exactly when rounding does not take it back |
| Walk.WalkIsBounded | golang/internal/execution/execution.go:621-687 | one look never lowers the limit, never passes the floor, and concedes no further than the book asks |
| Walk.LastStepArrives | golang/internal/execution/execution.go:604-619 | within the last two intervals of patience one step is the whole distance to the target |
| Walk.LimitNeverFalls | golang/internal/execution/execution.go:621-687 | over any life of passes, however the book moves, a later limit is no lower than an earlier one |
| Walk.LifeIsBounded | golang/internal/execution/execution.go:604-687 | over any life of passes the limit stays at or above where it began and at or under the floor |
| Walk.ArrivesInTheLastTwoIntervals | golang/internal/execution/execution.go:604-687 | walked to arrive, every pass within the last two intervals of patience, once the order is an interval old, leaves the limit no lower than the book or the floor, whichever is nearer, and at just that price if it moved it |
| Walk.ArrivesBeforePatience | golang/internal/execution/execution.go:604-687 | with two intervals of patience a life that outlasts it has such a pass as its last one in time, and the pass after cancels |
| Ladder.JudgeAll | golang/internal/execution/execution.go:389-461 | the loop judges every order in the order listed, each seeing the ages and the running risk the ones before it left |
| Ladder.Ladder.ForgetWhatIsDone | golang/internal/execution/execution.go:231-262 | chains shown as over are dropped, those shown as working stay, others go only by age |
| Ladder.Ladder.Step | golang/internal/execution/execution.go:300-474 | given the answers about each order and the risk to begin from, a pass counts itself, forgets what is done and judges the rest |
| Ladder.AskAbout | golang/internal/execution/execution.go:412-412 | what the pass knows of an order is worked out from it: its worst case exactly when it can be read, exact at one price for its legs when it is not unbounded, and the price the book shows exactly when every leg is two-sided |
| Ladder.WhatIsRisked | golang/internal/execution/execution.go:339-367 | the risk to begin from is worked out from the positions: the exact exposure, or full exactly when some position's loss has no floor |
| Ladder.Watch | golang/internal/execution/execution.go:300-474 | a whole pass from listed orders, quotes and positions: both of these, and then the pass judged from them |
| Ladder.BudgetOfAPass | golang/internal/execution/execution.go:339-435 | from within the book, the risk after any number of orders is within it, or past it by less than one set of the single order that crossed, after which none was accepted |
| Ladder.PastTheBookNothingFits | golang/internal/execution/execution.go:412-435 | past the book no order of known worst case is accepted, even one that can lose nothing |
| Ladder.FullTakesNothing | golang/internal/execution/execution.go:412-435 | a pass that begins with a full book accepts no order of known worst case |
| Ladder.OverTheBookTakesNothing | golang/internal/execution/execution.go:412-435 | a pass that begins past its book accepts none either, and its risk stays where it was |
| Ladder.NoRoomTakesNothing | golang/internal/execution/execution.go:352-376 | with a position whose loss has no floor, or an exposure past the book, no order of known worst case is accepted |
| Ladder.AcceptedLoseWhatWasCounted | golang/internal/execution/execution.go:389-435 | where the worst cases handed in bound the accepted orders, whatever these fill at, down to their floors, and whatever price each of their series settles at, they lose no more than the pass added to its risk |
| Ladder.ExposureOfTheAccount | golang/internal/execution/execution.go:339-435 | for such worst cases and an exact risk within the book, what is open at any prices, with everything the accepted orders may become at any prices, loses no more than the book, or than the book and less than one set of the order that crossed |
| Ladder.ExposureOfAPass | golang/internal/execution/execution.go:339-435 | the same for the answers and the risk a pass itself works out from the orders and the positions, when every order it accepts is of one series |
| Ladder.ACalendarPassesTheBook | golang/internal/execution/execution.go:389-435 | a pass with nothing at risk accepts an order of two series at any book that has its price, and its fill loses more than any bound at some prices |
| Ladder.ChainThroughOnePass | golang/internal/execution/execution.go:187-218 | one pass over a known chain keeps its placed time under one id, moves it at most once, and cancels it on patience exactly when that time is too far back |
| Ladder.AgeSurvivesReplacement | golang/internal/execution/execution.go:187-262 | over any number of passes and replacements the live order carries the time its first order was placed, and is cancelled on patience exactly at the first pass after it ran out |
| Ladder.LadderLivesTheWalk | golang/internal/execution/execution.go:389-461 | with its maps of ids and its renamings the ladder does to a chain exactly what the life of one order says |
| Ladder.OfferArrivesOnEveryLatePass | golang/internal/execution/execution.go:436-461 | in the ladder's own run, after every pass within the last two intervals of patience, the live order, once an interval old, stands no lower than the book or its floor, whichever is nearer, and never past the floor |
| Ladder.OfferArrivesInTheRun | golang/internal/execution/execution.go:436-461 | so it stands on the last pass before patience ends, and the next pass cancels it |
| Ladder.FirstSight | golang/internal/execution/execution.go:187-201 | a chain seen first is treated as one known to have been placed when the broker says it was submitted, however long ago, and carries that time on |
| Ladder.NeverPastTheFloor | golang/internal/execution/execution.go:621-687 | over any passes, however spaced, the live order of a chain carries the floor its first name carried, and stands between where it began and that floor |
| Ladder.LossOverTheWholeChain | golang/internal/execution/execution.go:621-709 | fills of the live order after any of the passes, at the limit it then has or better, through every replacement, together at most what rested, lose no more than the worst case worked out at first, at every choice of prices, for an order of one series, or no more than any bound there is for another |
| Ladder.VerdictSurvivesTheWalk | golang/internal/execution/execution.go:621-709 | after any passes the order under its new name and limit has the worst case it had, and is unbounded exactly when it was |
| Ledger.AppliedCounts | testbed/proxy/book.go:475-518 | filling sets moves any quantity-proportional sum over the real positions by sets times what one set counts for, through averaging, flips and deletions at zero |
| Ledger.WithLegsCounts | testbed/proxy/book.go:522-547 | and moves the same sum over the projected positions by the same amount |
| Ledger.ProjectionIsFaithful | testbed/proxy/book.go:522-547 | the projected book and the book after the fill are covered by exactly the same cash |
| Ledger.Listed | testbed/proxy/book.go:539-546 | the list has the map's sums for every function that ignores empty positions |
| Ledger.Meets | testbed/proxy/book.go:294-294 | the comparison with the requirement is true exactly when the cash suffices at every settlement |
| Account.StepKeeps | testbed/proxy/book.go:164-193 | every operation keeps positions under their symbols, orders under their names, the sequence listing each order once in the order of its number, and no order overfilled |
| Account.EveryRunIsKept | testbed/proxy/book.go:195-205 | so does every run from an account just opened |
| Book.Book.ReservedBook | testbed/proxy/book.go:557-601 | the list and the cash it returns suffice exactly when the account stands with every standing order but the skipped one, and the extra one, filled at their limits |
| Book.Book.Project | testbed/proxy/book.go:522-547 | the list it returns holds the book with the legs added |
| Book.Book.Move | testbed/proxy/book.go:487-518 | positions become the old ones with one symbol bought or sold, averaged, marked, and gone at zero |
| Book.Book.Apply | testbed/proxy/book.go:475-484 | every leg is moved by its signed ratio times the sets, at its own price |
| Book.Book.Submit | testbed/proxy/book.go:214-256 | accepted exactly when the book with the order in it is still reserved; refused, nothing changes |
| Book.Book.Fill | testbed/proxy/book.go:263-323 | booked exactly when the account it leaves is covered; a refusal changes the reason and the log only; the filled quantity grows by the sets exactly when the event says so |
| Book.Book.Cancel | testbed/proxy/book.go:351-371 | an open order is closed and nothing else changes; any other request changes nothing |
| Book.Book.Replace | testbed/proxy/book.go:377-445 | the old order is closed and its remainder, or the size asked less what filled, stands under a new name, exactly when the book with that exchange is reserved |
| Book.Book.ExpireDay | testbed/proxy/book.go:450-470 | puts out, and hands out, exactly the open day orders whose session is over |
| Book.Book.Note | testbed/proxy/book.go:341-349 | the reason changes on open orders only, and no filled quantity moves |
| Book.Book.MarkStand | testbed/proxy/book.go:328-336 | the mark is set on any order there is, and no filled quantity moves |
| Book.Book.SetMarks | testbed/proxy/book.go:615-629 | exactly the held symbols with a positive price are marked |
| Book.Book.Due | testbed/proxy/expiry.go:146-166 | returns exactly the option positions whose settlement time has come, each once |
| Book.Book.Settle | testbed/proxy/expiry.go:173-234 | a position expires empty below a cent, is paid in cash, or becomes shares at the strike; a missing or unreadable one changes nothing |
| Reserves.StepKeepsCovered | testbed/proxy/book.go:282-300 | no trading operation leaves an account that was covered uncovered |
| Reserves.EveryTradingRunIsCovered | testbed/proxy/book.go:263-323 | after any trading run the cash covers the worst settlement of the positions |
| Reserves.FillKeepsReserved | testbed/proxy/book.go:300-323 | a fill booked at or under the limit keeps the reserve: what it takes from the standing orders the account gains |
| Reserves.EveryRunIsReserved | testbed/proxy/book.go:214-256 | after any run of submissions, moves and fills at or under the limit, accepted or refused, the cash still covers the book with every standing order filled at its own limit |
| Accounting.AverageIsWeighted | testbed/proxy/book.go:306-309 | the new average times the new quantity is what both parts cost |
| Accounting.LedgerIdentity | testbed/proxy/book.go:300-323 | after any trading run cash is the start less every order's average price times its filled sets and its fees, and each position is the signed sum of filled ratios |
| Accounting.ChainConserves | testbed/proxy/book.go:389-442 | along a chain of moved orders filled and remaining add up to what the first asked for |
| Accounting.SetsAreConserved | testbed/proxy/book.go:389-442 | and this holds of every chain of same-size moves in every run, with only the last of it open |
| Expiry.NothingIsRounded | testbed/proxy/expiry.go:187-195 | at strikes and prices in cents the cents' value is the intrinsic value, below a cent exactly when it is zero |
| Expiry.DeliveryIsFair | testbed/proxy/expiry.go:204-222 | the shares a contract turns into, at any settlement price, less the strike paid or taken, are exactly its intrinsic value times quantity times a hundred |
| Expiry.PaymentIsFair | testbed/proxy/expiry.go:187-203 | what a contract pays that turns into no shares, in cash or by expiring empty, is that value but for half a dollar a contract, and exactly that value at a price and a strike in cents |
| Expiry.HalfADollarIsTaken | testbed/proxy/expiry.go:187-203 | there is a contract and a price at which rounding costs whoever sold it a full half dollar |
| Expiry.SettlementConserves | testbed/proxy/expiry.go:173-234 | one settlement moves no value, but for that rounding: cash, options and the shares it brings at the settlement price add up as before |
| Expiry.SettlementMovesShares | testbed/proxy/expiry.go:204-222 | shares of the root move by exactly those delivered, and of no other |
| Expiry.SettlementClearsOne | testbed/proxy/expiry.go:197-218 | the settled position is gone and no other option is touched |
| Expiry.SettlingAllConserves | testbed/proxy/expiry.go:93-121 | settling any list in any order conserves the value, but for the rounding of the positions settled, and leaves exactly the options not named |
| Expiry.SharesHeldWereDelivered | testbed/proxy/expiry.go:204-222 | the shares held after any settlements are those held before and those delivered on the way |
| Expiry.Solvency | testbed/proxy/expiry.go:173-234 | an account opened without debt, traded in any way, then settled in any order at one price per series ends with cash and delivered shares worth at least nothing, but for half a dollar on each contract held off the cent, no options left |
| Expiry.SolvencyAtOnePrice | testbed/proxy/expiry.go:173-234 | with one price per underlying, cash and the shares then held at that price are worth at least that |
| Expiry.SettlementKeepsWorth | testbed/proxy/expiry.go:173-234 | at one price per underlying a settlement leaves cash, options and all shares held worth together what they were, but for the rounding |
| Expiry.MarginOutweighsShares | testbed/proxy/risk.go:281-290 | what is set aside for short shares marked at the price is at least what buying them back takes |
| Expiry.SolventThroughout | testbed/proxy/expiry.go:173-234 | at one price per underlying, any interleaving of trading and settlement from an account opened without debt leaves cash, options and shares together worth at least nothing, but for half a dollar on each contract settled off the cent, and at least nothing when all are on it |
| Expiry.SolventAtTheEnd | testbed/proxy/expiry.go:173-234 | and when no option is left, cash and shares alone |
| Store.FixedColumnsNeverChange | testbed/proxy/store.go:168-194 | no operation forgets an order or changes the columns the upsert leaves alone |
| Store.StepIsBlind | testbed/proxy/store.go:282-301 | no operation reads the events: it does the same and appends the same without them |
| Store.SubmissionOrderIsReadBack | testbed/proxy/store.go:251-254 | reading orders by number gives back the order of submission, because there is only one such order |
| Store.RestartsAreInvisible | testbed/proxy/store.go:130-302 | after any life of operations, day closes and restarts the file holds, field for field and event for event, what the operations alone would have led to, and memory agrees |
| Store.LoadRebuildsTheBook | testbed/proxy/store.go:214-302 | loading then rebuilds cash, positions, every field of every order, the submission order, the sequence and the count of events |
| Store.WriteOrders | testbed/proxy/store.go:163-194 | new orders are written whole, known ones only in the columns named, rows of others stay |
| Store.AppendEvents | testbed/proxy/store.go:196-207 | events from the saved count on are added under their places, and no row is overwritten |
| Store.EveryFileCanBeLoaded | testbed/proxy/store.go:251-276 | after any life of a book its rows stand under their own names, no two with one number |
| Store.Store.Save | testbed/proxy/store.go:130-210 | the participant's rows become the saved ones and nobody else's change |
| Store.Store.Load | testbed/proxy/store.go:214-302 | found exactly when the participant is in the file, and then the book the rows say, orders by number |
| Match.Executable | testbed/proxy/match.go:198-256 | an offer exactly when every leg is quoted, fresh, uncrossed and priced on its side; price, sets and leg prices as the quotes and the sizes left say |
| Match.RoundTripNeverPays | testbed/proxy/match.go:219-229 | a set priced one way and its mirror the other way never add up to less than zero |
| Match.SetsAreTheMost | testbed/proxy/match.go:231-253 | the sets offered are the most for which every leg's remaining size suffices |
| Match.LowerShown | testbed/proxy/match.go:185-187 | what is shown falls by ratio times sets on every leg's side |
| Match.NoMoreThanShown | testbed/proxy/match.go:131-189 | over a tick of orders of all books, whatever the books answer, booked and left on a side never exceed what was shown there, and nothing goes below zero |
| Match.NoMoreThanQuoted | testbed/proxy/match.go:136-148 | no more is booked on a side of a contract in a tick than its quote shows |
| Match.LimitsAreKept | testbed/proxy/match.go:158-172 | every limit order is booked at or under its limit, at usable quotes, for at most what remains of it |
| Match.RepeatedLegsOverdraw | testbed/proxy/match.go:236-253 | for every order that repeats a side of a contract and can be filled there are sizes at which a tick that books it is not honest |
| Match.Fill | testbed/proxy/match.go:151-189 | a turn asks the book for a note, or a fill of the tried sets at the set's price within the limit, and a booking is the book's own filled quantity growing by those sets |
| Match.TakeTurn | testbed/proxy/match.go:146-148 | a turn leaves every other waiting order as filled as it was, in whatever book, and its own grown by what was booked |
| Match.Once | testbed/proxy/match.go:136-148 | after the loop every waiting order's own filled quantity has grown by what the tick says was booked, and over all books the growth on a side of a contract is at most the size its quote shows |
| Match.TurnsKeepOrders | testbed/proxy/match.go:158-172 | what a turn asks for a limit order is among the operations that keep the reserve |
| Gate.EveryInterleavingKeepsThePlaces | testbed/proxy/upstream.go:216-292 | under every interleaving free places and those held, handed over unseen or owed back are as many as the gate has, and while one is free nobody waits |
| Gate.NothingIsLost | testbed/proxy/upstream.go:244-258 | when everybody has gone every place is free again, whatever cancellation raced whatever grant |
| Gate.TheFirstOfTheForemost | testbed/proxy/upstream.go:277-292 | a place goes to the oldest waiter of the most important queue that has one |
| Gate.Gate.Enter | testbed/proxy/upstream.go:230-243 | takes a free place or joins the tail of its queue, an unknown priority the last one |
| Gate.Gate.Remove | testbed/proxy/upstream.go:265-275 | removes the caller where it is, and reports exactly whether it was no longer there |
| Gate.Gate.GiveUp | testbed/proxy/upstream.go:244-258 | a cancelled caller leaves its queue, or owes back the place it was handed |
| Gate.Gate.Leave | testbed/proxy/upstream.go:277-292 | a place given up goes to the first waiter of the foremost queue, or back to the free ones |
| Mailbox.EveryInterleavingKeepsInv | golang/internal/mailbox/mailbox.go:208-416 | under every interleaving each delivery is in exactly one of taken, queued, expired; each issued turn is running or has one end owed or emitted; nobody sleeps through a delivery |
| Mailbox.TakesFollowParking | golang/internal/mailbox/mailbox.go:385-416 | takes follow the order of parking, and what is queued comes after them |
| Mailbox.NoLostWakeUp | golang/internal/mailbox/mailbox.go:385-416 | while something is queued every blocked poll can wake, and looking then takes the head |
| Mailbox.EndedTurnsStayEnded | golang/internal/mailbox/mailbox.go:585-606 | a turn whose end was emitted never runs again and no second end is owed |
| Mailbox.Mailbox.Park | golang/internal/mailbox/mailbox.go:412-416 | the delivery goes to the tail and the channel the polls wait on is closed |
| Mailbox.Mailbox.Turn | golang/internal/mailbox/mailbox.go:208-225 | a fresh turn runs and its delivery is parked |
| Mailbox.Mailbox.Steer | golang/internal/mailbox/mailbox.go:233-250 | parked exactly for a running turn |
| Mailbox.Mailbox.Interrupt | golang/internal/mailbox/mailbox.go:263-284 | a running turn is closed and one end owed; any other is left alone |
| Mailbox.Mailbox.Finish | golang/internal/mailbox/mailbox.go:585-606 | an end is owed exactly when the turn was still running |
| Mailbox.Mailbox.GiveUpOnStale | golang/internal/mailbox/mailbox.go:334-372 | what waited too long is dropped in order, and exactly the running turns it belonged to end, each once |
| Mailbox.Mailbox.Next | golang/internal/mailbox/mailbox.go:385-409 | takes the head, or waits on the channel that is open now |
| Mailbox.CloseTurns | golang/internal/mailbox/mailbox.go:349-356 | exactly the running turns whose own delivery was dropped are closed, none twice |
| Turns.OneOpener | golang/internal/harness/harness.go:928-949 | at most one opener holds the claim, and until it publishes it faces no turn or the one it named as stale |
| Turns.ALiveTurnIsReplacedExactlyWhen | golang/internal/harness/harness.go:964-1022 | in every reachable state an event writes a name over a turn still at work exactly when it publishes for an opener whose stale turn is not none, is the one running and is not over |
| Turns.AClaimReplacesALiveTurnExactlyWhen | golang/internal/harness/harness.go:928-949 | a granted claim whose turn is made and published with nothing in between leads to a live turn's replacement exactly when it names the running turn as stale while it is not over; the opener writes over what ran then and nothing else |
| Turns.NoLiveTurnIsReplaced | golang/internal/harness/harness.go:964-1022 | in a run whose claims all name only turns that are over, no name is ever written over a turn still at work |
| Turns.AnUnreachableTurnIsReplaced | golang/internal/harness/harness.go:566-589 | a caller whose steer failed for another reason takes over a live turn |
| Turns.OnlyItsOwnEndClearsATurn | golang/internal/harness/harness.go:1217-1238 | the running turn goes only by a completion in its own name, by its stale replacement, or by the two events that name none |
| Turns.LostExactlyWhenOvertaken | golang/internal/harness/harness.go:1217-1238 | in every state and for every event, a delivered completion that has cleared its turn or is remembered stops being so exactly when it is the one remembered, its opener has not looked yet, and a completion comes that is neither its own nor the running turn's |
| Turns.OvertakenStandsAsRunning | golang/internal/harness/harness.go:1017-1062 | and the opener's own remaining steps then leave the finished turn standing as running, with nobody opening |
| Turns.KeptExactlyWhenNothingIsOvertaken | golang/internal/harness/harness.go:171-184 | over every run, in any order, all delivered completions are kept at every moment exactly when no event overtakes the one remembered |
| Turns.CompletionIsNeverLost | golang/internal/harness/harness.go:171-184 | in a run in which nothing is overtaken, once nobody is opening no turn stands as running whose completion was delivered |
| Turns.TheOpenerClearsIt | golang/internal/harness/harness.go:1040-1052 | and while one is, that opener's own remaining steps clear it |
| Turns.InTurnOrderNothingIsOvertaken | golang/internal/harness/harness.go:171-184 | completions delivered in the order of the turns overtake nothing |
| Turns.OutOfOrderACompletionIsLost | golang/internal/harness/harness.go:171-177 | with an older turn's completion arriving late, a finished turn stands as running |
| Turns.BetweenNamingAndLookingACompletionIsLost | golang/internal/harness/harness.go:1017-1048 | the right completion is remembered when the name is published, and a late one of an older turn comes before the opener looks: a finished turn stands as running |
| Turns.Harness.Claim | golang/internal/harness/harness.go:936-949 | granted exactly when nobody is opening and no turn runs but the stale one |
| Turns.Harness.Release | golang/internal/harness/harness.go:951-955 | the claim is free again |
| Turns.Harness.Publish | golang/internal/harness/harness.go:1017-1022 | the name is everybody's |
| Turns.Harness.EndedAlready | golang/internal/harness/harness.go:1040-1048 | true exactly when the completion of this turn is the one remembered, which is then forgotten |
| Turns.Harness.FinishTurn | golang/internal/harness/harness.go:1217-1238 | clears the turn it names, or is remembered while somebody opens |
| Recent.OneQuestionInFlight | golang/internal/api/recent.go:58-80 | at most one question is in flight, whoever reads and whoever leaves |
| Recent.FailureIsNeverKept | golang/internal/api/recent.go:91-107 | the copy is always what some question brought back, as of that instant, and a failure changes neither |
| Recent.CopiesAreYoung | golang/internal/api/recent.go:58-66 | a kept copy is handed out only within the time it is kept for |
| Recent.AnswersWereInFlight | golang/internal/api/recent.go:68-89 | a reader answered by a question came while it was in flight and gets its result |
| Recent.NobodyIsStranded | golang/internal/api/recent.go:72-89 | a waiting reader is answered by its question's own steps though the reader who started it has left |
| Recent.Cache.Read | golang/internal/api/recent.go:58-80 | the young copy, or the question to wait on, started exactly when none is in flight |
| Recent.Cache.Publish | golang/internal/api/recent.go:97-104 | the question is over, and the copy changes only for an answer |

## Left out

- TooBig.WorstCase: takes one price for all the legs of an order, as the code does; for an order of several series it bounds the account's loss only when `TooBig.BoundsExactlyWhen` says so.
- Ladder.ExposureOfAPass: for accepted orders of one series each; `Ladder.ExposureOfTheAccount` is about any whose worst case is a bound, and `Ladder.ACalendarPassesTheBook` shows that some condition is needed.
- Ladder.LossOverTheWholeChain: the worst case the code works out is the bound for an order of one series; for another it has to be one.
- Exposure.AtRisk: for a book with calls net sold the code returns a number that bounds nothing; the contract then says only that it is not negative, and `Exposure.WithoutAFloor` says which series.
- Ladder.AgeSurvivesReplacement: assumes cancellations succeed, replacements come back with a fresh id, and the live order is within the listing of every pass.
- Reserves.EveryRunIsReserved: not stated across `Cancel`, `ExpireDay` and fills above the limit, which can withdraw a covering order or spend more than was reserved; `Reserves.EveryTradingRunIsCovered` holds across all of them.
- Reserves.EveryTradingRunIsCovered: not stated across `Settle` and `SetMarks`; settling one leg at a time may leave the other naked for a moment. What holds across them is `Expiry.SolventThroughout`.
- Expiry.Solvency: prices are at or above zero, one for each series; those off the cent cost up to half a dollar a contract.
- Expiry.SolventThroughout: one price per underlying for the whole run, at which shares are marked; a price that moves between settlements is a gain or a loss like any other.
- Match.NoMoreThanShown: for orders whose legs do not repeat a side of a contract; `Match.RepeatedLegsOverdraw` shows the condition cannot be dropped.
- Store.RestartsAreInvisible: every save succeeds, and what JSON, timestamps and SQL columns hold reads back as written.
- Turns.NoLiveTurnIsReplaced: for callers that failed to reach a turn because it had ended; the exact condition on an event is `Turns.ALiveTurnIsReplacedExactlyWhen`.
- Turns.CompletionIsNeverLost: for runs in which nothing is overtaken; that is exactly when every completion is kept (`Turns.KeptExactlyWhenNothingIsOvertaken`), but a turn whose completion was lost may still be cleared by an event that names none.
- Turns.AClaimReplacesALiveTurnExactlyWhen: for an opener that nothing interrupts; the stale turn may end while the new one is being made, and `Turns.ALiveTurnIsReplacedExactlyWhen` covers that.
- Floating-point rounding: numbers are real.
- Bytes: names are ASCII, so the 128 bytes the broker takes are 128 characters.
- Time zones and the calendar: instants are whole numbers, and when a day's contracts settle is a parameter.
- Identifiers drawn at random: each operation is given one nobody has.
- Reading symbols: a contract symbol is modelled as read, tickers that would read as contracts do not occur, and legs are contracts with whole positive ratios, as submission checks.
- The reader of decimals is a parameter, asked only to read a plain decimal as what it says.
- `Book.Fill`'s answer for a leg that cannot be read: submission lets no such leg in.
- Closing equity, snapshots, lookups by client id and the text of refusals.
- Index options: `Settle` pays them in cash, but its caller has no index price and leaves them.
- The wording of reasons: a refusal, a move and a cancellation are cases, a note is text.
- The overrun watcher's measuring and interrupting; its clearing of whatever turn is current is one step.
- `Tell` and `steerWhenReady`: which of their attempts carried a prompt; only the claims they make are modelled.
- The gate's cache: after a stale wait it may overwrite an entry another caller has just started, so single flight is not kept there.
- Mailbox texts, holds and handlers; a hold running out is a poll giving up.
- The entry rule's judgement of a floor, the edge of a price, and reports: answers the ladder's pass is given.
- Black-Scholes, screening, Telegram, HTTP, Postgres and process handling.
