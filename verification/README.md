# Copy-trading engine and client-money portal: a verified model

The system copies a master account's trades to follower accounts (the copier) and keeps the money of
investors (the portal). This project models the stateful protocols of both as Dafny state machines,
classes and loops, and proves what they keep over every run, every interleaving and every answer of an
adversarial counterparty. `dafny verify dfyconfig.toml` checks all of it.

| file | part of the system |
|---|---|
| `Mpin.dfy` | MPIN tries: reserve, verify, lock, by any number of concurrent calls on one clock |
| `Money.dfy`, `Ledger.dfy` | cents, fees, balances, holds, the idempotent settlement writer, bonuses |
| `Portal.dfy`, `PortalMoney.dfy`, `PortalExact.dfy` | every money transaction of an investor: when it is accepted and what it does, conservation, no overdraft |
| `BonusCredit.dfy`, `BonusReadings.dfy` | bonus principal stays in the trading account; how old an equity reading may be |
| `Fifo.dfy`, `Mt5Sync.dfy`, `Mt5App.dfy`, `Mt5Rows.dfy` | a follower terminal's sync: acks, deals, and what each booking takes of the copies' rows |
| `Mt5Runs.dfy`, `Mt5Exact.dfy`, `Mt5Faults.dfy`, `Mt5Missed.dfy` | every run of that sync: which deals move the rows once and right, and the runs in which one does not |
| `KillSwitch.dfy`, `Flatten.dfy` | pause, flatten, verify, restore |
| `DealFetch.dfy`, `Backfill.dfy` | bisecting deal fetch, backfill walk and rotation |
| `EngineMaps.dfy` | per-org engines sharing one symbol map |
| `RateLimiter.dfy`, `OAuth.dfy`, `BodyLimit.dfy` | sliding-window limiter, connect states, body limit |
| `Ticks.dfy`, `Perf.dfy`, `Protection.dfy` | dashboard kernels |

## How to read it

Time, randomness, the database's answers, the broker's answers and the order in which concurrent
statements land are inputs of a run, chosen freely. A database statement, or a transaction under its
lock, is one step. A theorem about "every run" quantifies over all sequences of such steps. A class has
the source's mutable fields, and its methods are tied by `ensures` to the functions the theorems speak of.
Money is whole cents, percentages and prices are exact reals.

## What turned out different from the documentation

- MPIN: "at most five verifies per window" holds for a shorter window than the lock. With calls lasting at
  most e, the exact safe stretch is the lock less e for reservations and the lock less 2e for hash checks,
  because a slow call writes a lock counted from its own start (`ExactReserveStretch`, `ExactVerifyStretch`).
- Bonus confinement: the route reads equity before it takes the ledger lock. A reading keeps its worth until
  an outflow the desk has paid leaves the open requests, be it done, rejected, or cancelled by the investor
  (`StepReach`, `ReadingKeeps`, `ReadingsInTimeKeep`). An older one lets principal leave, from empty tables, with a
  disciplined desk, and in each of the three ways (`LeakFromEmpty`).
- Bonus confinement, the cap itself: it counts credit that is on the books. Credit goes off them exactly when a
  request the desk has already funded is rejected or cancelled (`StrandedExactly`); all of it can then be paid out
  on fresh readings (`StrandedLeaks`). The cap protects all funded credit if and only if it admits nothing or the
  reading leaves room for the stranded part (`StrandedReadExact`), and then all of it stays (`AllCreditStays`).
- MT5: "the ack did the bookkeeping already" holds for a close if and only if the ack says which deal it made and
  of what volume, the deal is not reported before it, and the copy's row still holds that volume, and for an open
  if and only if it also names the deal's own position or comes with the deal (`BookedExactly`). Not all of that is in the terminal's hands: a command the copier
  gave up on, and which was executed all the same, is not acked however well the terminal acks it (`TimelyIsExact`,
  `GivenUpIsForeign`). An ack without its deal has one close reduce the copies twice (`BlindCloseTwice`), one
  without a volume books the lots asked for (`PartialFillOverbooked`), an open is booked on the position its ack
  names (`AstrayOpenMisplaced`), and one that emptied the net position can go unbooked for ever
  (`EmptiedCopyIsLost`).
- MT5, rows that lack what a booking is to move: a copy's close after a close by hand was charged to that copy
  takes nothing, and the rows hold more than the net position (`EmptiedCopyClosesNothing`); an increase on a hedging
  account has the row leave its position for the new one (`IncreaseLeavesPosition`); a close on a hedging account
  charges every row of its position in full, which is right if and only if it closes nothing, closes everything or
  one row holds it all (`EachIsConsume`).
- MT5, pending copies: a fill is booked on its copy if and only if it is reported as an entry, into a position that
  no row, and no open acked in the same poll, maps, and the row of that copy, and no other, works the order and
  holds nothing yet (`BookedExactly`). Against the net position it reduces the oldest copies instead
  (`PendingFillCloses`), into a mapped one it is passed over (`PendingFillPassedOver`), an order the copier gave up
  on is worked by no row (`UnworkedFillIsLost`), and of two parts in one report the second replaces the first
  (`SecondPartOverwrites`).
- Kill switch: an operator's STOP after the setting is read and before the guard read, whether it lands before or
  after the pause, is undone by the restore (`RestoreOverrides`, `EarlyStopIsOverridden`, `StopIsOverridden`). A
  guard read that fails leaves copying off until an operator acts, although the comment beside it says a failure
  there still reaches the restore (`AbortLeavesOff`). A second press while the first flattens leaves copying off
  with no operator write at all (`PutsBack`, `OverlapLeavesOff`).
- Reload: an org whose new master was added while the reload waited, and so is not among the accounts it loaded,
  keeps the engines of its old master: the engines name the routed master if and only if that account was loaded
  or they named it before (`Engines.Reload`).
- Backfill: an account whose walk back stops short of the bound, and whose next tick comes after the clock
  alone has passed the bound, is never fetched again (`NoWindow`, `WalkGetsStuck`).
- OAuth: a callback without a state guesses if and only if the row it takes was issued between its count and
  its take (`TakesWhatItCounted`, `GuessesAcrossConnect`). A sweep changes no decision if and only if it is at
  most one instant newer than the callback's clock reading (`SweepHarmless`, `SweepTurnsAway`).
- Protection: the price is judged before it is rounded, so a level of 0 can be sent (`SentAboveZero`, `ZeroIsSent`).

## Model

| member | source | states |
|---|---|---|
| Mpin.UserRow.Reserve | api/src/api/mpin_core.py:77-83 | the guarded UPDATE: takes a try exactly when a hash is set, the lock is over and tries are left |
| Mpin.UserRow.Lock | api/src/api/mpin_core.py:62-67 | locks from the caller's own clock and zeroes the counter |
| Mpin.UserRow.Clear | api/src/api/mpin_core.py:98-101 | a right guess clears counter and lock |
| Mpin.UserRow.Check | api/src/api/mpin_core.py:70-106 | one undisturbed call: which answer, and the row it leaves. The fifth wrong guess locks until 15 minutes from the call's start, a refusal with the lock over until 15 minutes from now, one with the lock held changes nothing and names that lock, a right guess clears counter and lock; at most one check of the real hash. It is what the protocol's own steps do with no other call in flight |
| Mpin.AloneEnds | api/src/api/mpin_core.py:70-106 | for every row: the steps of a call alone are allowed, finish it, and leave that row |
| Mpin.StoreStartsAfresh | api/src/api/routes/mpin.py:50-54 | in any state a new MPIN leaves its hash, no tries and no lock, and a call begun may reserve the first try |
| Mpin.StepKeepsInv | api/src/api/mpin_core.py:70-106 | every statement of every call keeps: counter = reservations since the last reset, each lock bars reservations for the lock less the call budget, each hash check has its own earlier reservation |
| Mpin.RunKeepsInv | api/src/api/mpin_core.py:70-106 | the same over every interleaved run |
| Mpin.WindowCap | api/src/api/mpin_core.py:62-106 | in any log keeping that invariant, a stretch as long as the bar, without a clear, has at most five reservations |
| Mpin.VerifiesAreReserved | api/src/api/mpin_core.py:77-98 | the hash checks of a stretch inject into the reservations of the stretch widened by one budget |
| Mpin.LockIsNoLonger | api/src/api/mpin_core.py:62-106 | a reachable run with six or more reservations, and hash checks, in a stretch one tick longer than the bound |
| Mpin.ExactReserveStretch | api/src/api/mpin_core.py:70-106 | stretches of length w are safe in every run if and only if w <= lock - e, by reservations |
| Mpin.ExactVerifyStretch | api/src/api/mpin_core.py:70-106 | the same by hash checks: if and only if w <= lock - 2e, or 0 when 2e outlasts the lock |
| Money.FloorCents | api/src/api/portal_ledger.py:69-71 | rounds toward zero, within one cent |
| Money.RoundCents | api/src/api/portal_ledger.py:74-76 | rounds half up, within half a cent |
| Money.CapIsExact | api/src/api/portal_ledger.py:121-124 | a cent amount passes the floored cap exactly when it is at most the exact figure |
| Money.FeeWithinAmount | api/src/api/portal_ledger.py:79-80 | a fee below 100% is between 0 and the amount, and eats all of it only when less than half a cent was left |
| Money.FeeIsHalfUp | api/src/api/portal_ledger.py:79-80 | a number of cents is the fee if and only if it is the percentage to the nearest cent, a half going up |
| Money.DepositBonusExact | api/src/api/portal_ledger.py:83-87 | the bonus is the percentage to the nearest cent, or the cap when that is less |
| Money.DepositBonusBounds | api/src/api/portal_ledger.py:83-87 | a deposit bonus is between 0 and the deposit and never above its cap |
| Ledger.Balances | api/src/api/portal_ledger.py:98-105 | one pass gives every wallet the sum of its entries |
| Ledger.Holds | api/src/api/portal_ledger.py:108-118 | open withdrawals weigh on main, open transfers on their source wallet |
| Ledger.TakenMeansCalled | api/src/api/portal_common.py:436-451 | a reference is taken exactly when some earlier call carried it |
| Ledger.ReplaySafe | api/src/api/portal_common.py:436-451 | any sequence of settlements with repeats writes exactly the first call per reference and wallet, and every unreferenced adjustment |
| Ledger.LedgerIsWritten | api/src/api/portal_common.py:436-451 | the same said of the calls themselves: in order, every call that names no request, and of the others the first to name its request on its wallet |
| Ledger.PaidExactly | api/src/api/portal_common.py:500-529 | a bonus that is not zero is paid if and only if no row is of the same signup or kyc rule or of the same deposit, so a manual one always is; then exactly its row and its credit entry are added. No two rows are both signup, both kyc, or for one deposit |
| Ledger.LedgerTables.Settle | api/src/api/portal_common.py:436-451 | inserts unless the reference is taken, and says which |
| Ledger.LedgerTables.Pay | api/src/api/portal_common.py:500-529 | inserts a bonus and its credit entry, or neither: the first exactly when it is not zero and no row bars it |
| Portal.PayKeeps | api/src/api/portal_common.py:500-529 | in every reachable state paying a bonus never drifts: row and entry are written together, if and only if it is not zero and no row of its rule bars it |
| Portal.ConfirmKeeps | api/src/api/routes/portal_admin.py:365-449 | confirming a deposit (credit, earmark, bonus) keeps ledger rows and settled requests one to one |
| Portal.PayWithdrawalKeeps | api/src/api/routes/portal_admin.py:492-565 | paying a withdrawal keeps them one to one |
| Portal.SettleWrites | api/src/api/routes/portal_admin.py:700-739 | completing a transfer writes exactly its debit and credit rows |
| Portal.MoveTransferKeeps | api/src/api/routes/portal_admin.py:656-739 | every transfer transition keeps the correspondence |
| Portal.StepKeepsInv | api/src/api/portal_common.py:399-451 | every transaction keeps: ledger rows and settled requests, bonuses included, correspond one to one with equal amounts; on the rows, never two signup bonuses, two kyc bonuses or two for one deposit; every transfer is main to account, account to main, pamm to main, social to main or credit to account |
| Portal.PairsAreFive | api/src/api/portal_ledger.py:161-192 | the pairs accepted are exactly those five |
| PortalMoney.PayingMovesNothing | api/src/api/portal_ledger.py:108-124 | paying turns the hold into a debit: available is unchanged, the balance drops by the amount |
| PortalMoney.FinishDelta | api/src/api/portal_ledger.py:108-124 | completing a transfer leaves the source's available unchanged |
| PortalMoney.StepDelta | api/src/api/portal_common.py:292-323 | no transaction makes a balance drift from its requests, nor lowers available beyond what an admin took by hand |
| PortalMoney.RunAccounted | api/src/api/portal_common.py:292-451 | every run: one-to-one rows, every balance is what its requests add up to, overdraft bounded by negative adjustments |
| PortalMoney.RunAccountedFromEmpty | api/src/api/portal_common.py:292-451 | the same for every run from empty tables, with nothing assumed of the start |
| PortalMoney.NeverOverdrawn | api/src/api/portal_common.py:316-323 | every run without negative adjustments, claw-backs allowed, ends with every wallet's available at 0 or more |
| PortalMoney.NeverOverdrawnFromEmpty | api/src/api/portal_common.py:316-323 | the same for every such run from empty tables |
| PortalExact.AdmittedExactly | api/src/api/routes/portal_investor.py:533-681 | every transaction is accepted if and only if: its status is the one it starts from and may lead there, its amounts are positive and covered by what is free, its pair is one of the five, the fee leaves something, no credit inflow and outflow of an account meet, and an outflow leaves the credited bonus within the equity read, at the request and again when decided |
| PortalExact.StepFigures | api/src/api/portal_common.py:292-451 | the exact change of every wallet's balance and hold by every accepted transaction: what a confirmation credits and holds, what a decision releases or settles, what each rule pays and when |
| PortalExact.StepEquity | api/src/api/portal_common.py:326-390 | only trading and the desk's moves change an account, by the gain or by the amount moved in or out |
| PortalExact.DepositFiled | api/src/api/routes/portal_investor.py:220-320 | a notice waits with its amount, account and fee to the nearest cent, and moves nothing |
| PortalExact.WithdrawalFiled | api/src/api/routes/portal_investor.py:439-495 | a request splits its amount into the fee, to the nearest cent, and what is paid |
| PortalExact.TransferFiled | api/src/api/routes/portal_investor.py:533-656 | between wallets a transfer is done at once, any other waits, with the equity it was checked against when it leaves an account |
| PortalExact.ConfirmFiles | api/src/api/routes/portal_admin.py:365-449 | a confirmed deposit records what was credited, and a transfer of it to the named account is approved exactly when the account is still the investor's |
| PortalExact.RunAdvances | api/src/api/portal_ledger.py:130-155 | over every run every request stays with its amount and ends, and goes from pending or requested to a final status, perhaps through approved, and never back |
| PortalExact.WalletsAreMadeOf | api/src/api/portal_ledger.py:161-166 | every run from empty tables: main is deposits, account, pamm and social transfers and adjustments, less withdrawals and transfers to accounts, and no bonus; credit is bonuses and adjustments less transfers to accounts |
| PortalExact.BonusIsNeverWithdrawn | api/src/api/portal_ledger.py:159-166 | every run from empty tables without negative adjustments: what left main and is still asked for never exceeds what came into it, bonuses not counted |
| BonusCredit.OutflowRequested | api/src/api/portal_common.py:383-390 | an outflow admitted by the cap leaves the principal covered after every promised payout, for any reading at most present equity plus payouts whose requests are still open |
| BonusCredit.StepSafe | api/src/api/portal_common.py:326-390 | every step keeps principal covered and never both a credit inflow and an outflow open |
| BonusCredit.RunSafe | api/src/api/portal_common.py:326-390 | every disciplined run, with readings sound in that sense, keeps equity at or above the bonus principal on the books; requests may be rejected or cancelled after the desk has paid them |
| BonusCredit.RunSafeFromEmpty | api/src/api/portal_common.py:326-390 | the same for every disciplined run from empty tables |
| BonusCredit.StrandedExactly | api/src/api/routes/portal_investor.py:659-681 | every run: credit in the account but off the books never shrinks, and grows if and only if the run rejects or cancels a request whose credit the desk had funded |
| BonusCredit.AllCreditStays | api/src/api/portal_common.py:326-390 | every disciplined run from empty tables whose readings leave room for the credit stranded at the time keeps equity at or above all credit ever funded, stranded or not |
| BonusCredit.UnstrandedIsWhole | api/src/api/portal_common.py:326-390 | while no credit is stranded, sound readings leave that room |
| BonusCredit.PaidInStays | api/src/api/portal_common.py:326-390 | in every such run the account keeps at least the sum of all bonus transfers the desk moved into it, open, done, rejected or cancelled |
| BonusReadings.StaleReadExact | api/src/api/portal_common.py:383-390 | the cap protects the principal if and only if it admits nothing or the equity read is at most present equity plus payouts whose requests are still open |
| BonusReadings.StrandedReadExact | api/src/api/portal_common.py:383-390 | the cap protects all funded credit, stranded credit included, if and only if it admits nothing or the equity read plus the stranded credit is at most that |
| BonusReadings.StepReach | api/src/api/portal_common.py:326-390 | conservation, for every event and any desk: equity plus payouts still open changes by trading and inflows, and by a paid outflow that leaves the open requests, in any way, and by nothing else |
| BonusReadings.ReadingKeeps | api/src/api/routes/portal_investor.py:573-616 | a reading taken at any earlier state of a run stays sound while no paid outflow of the account leaves the open requests |
| BonusReadings.ReadingsInTimeKeep | api/src/api/routes/portal_investor.py:573-616 | every run of a disciplined desk whose requests ride on no reading older than the last paid outflow to leave the open requests keeps the principal |
| BonusReadings.StaleReadLeaks | api/src/api/routes/portal_investor.py:573-616 | with an equity read before the previous payout, and that request done, rejected or cancelled since, every check passes and principal leaves |
| BonusReadings.LeakFromEmpty | api/src/api/routes/portal_investor.py:573-681 | the same from empty tables, for every account, amount and way of leaving, the investor's cancel included, by a disciplined desk: the account ends with none of its principal |
| BonusReadings.StrandedLeaks | api/src/api/routes/portal_investor.py:659-681 | from empty tables and on fresh readings alone: the investor cancels a bonus already funded and all of it is paid out |
| Fifo.ConsumeTakes | copier/src/copier/db/repo.py:1806-1822 | the walk takes exactly the closed volume, or all that is held |
| Fifo.ConsumeIsFifo | copier/src/copier/db/repo.py:1794-1822 | a row keeps volume only if every younger row is untouched |
| Fifo.ConsumeTwice | copier/src/copier/db/repo.py:1806-1822 | two closes in a row equal one close of their sum |
| Mt5Sync.ReduceFifoConsumes | copier/src/copier/db/repo.py:1774-1830 | the row walk is that consumption on the active rows of the position, closes a row it empties, and moves no other row |
| Mt5Sync.PositionOfDeal | copier/src/copier/main.py:2842-2896 | the position taken from the report is that of the deal with the ack's ticket, and none when the report has no such deal |
| Mt5Rows.ReduceCopyTakes | copier/src/copier/db/repo.py:1208-1221 | a copy's close takes its volume from that copy, or all the copy holds |
| Mt5Rows.EachIsConsume | copier/src/copier/db/repo.py:1208-1221 | charging every row of a position in full equals oldest-first consumption if and only if nothing is closed, everything is, or one row holds it all |
| Mt5Rows.LandsExactly | copier/src/copier/db/repo.py:1111-1366 | for any rows and every booking: each row moves as the booking calls for and no other does, if and only if the rows have what it is to move: an open its copy's row with nothing on another position, a copy's close its volume in that row, a hedging close no two rows sharing the position unless emptied, a fill the unfilled row of the copy its order was placed for, an accepted order its copy's row; a cancelled order closes exactly the rows working it |
| Mt5Sync.SortOrders | copier/src/copier/main.py:3007-3008 | new deals are booked in (time, ticket) order |
| Mt5Sync.Insert | copier/src/copier/main.py:3007-3008 | sorting drops and invents no deal |
| Mt5App.Follower.ApplyAcks | copier/src/copier/mt5/outbox.py:212-243 | each ack settles an open command once; duplicates and unknown ids change nothing; a ':close' open reports as a close |
| Mt5App.Follower.TakeOldestFirst | copier/src/copier/db/repo.py:1786-1822 | the loop computes the oldest-first reduction |
| Mt5App.Follower.Enter | copier/src/copier/engine/service.py:742-868 | one booking activates, reduces one copy, reduces a position, or accepts, drops or fills a pending copy's order |
| Mt5App.Follower.ApplyOutcomes | copier/src/copier/main.py:2869-2952 | what each settled command books, in order |
| Mt5Exact.AckBooks | copier/src/copier/mt5/outbox.py:212-243 | for every command and ack, in their own fields: a refused one books nothing, a copy's open its copy on the position named or else its deal's, a ':close' or close that copy's volume, an operator's open the rows working its order, a placed order its copy's, a cancelled one drops it; what the ack leaves out is the command's |
| Mt5App.Follower.OwnDeals | copier/src/copier/main.py:3073-3138 | what each new deal books, skipping the settled ones |
| Mt5App.Follower.Poll | copier/src/copier/main.py:2838-2856 | one sync of a follower, in the source's order |
| Mt5Runs.EachSettlesOnce | copier/src/copier/db/repo.py:1579-1602 | whatever is re-acked, outcomes come from distinct commands that were open and now are not |
| Mt5Runs.OutcomesAre | copier/src/copier/mt5/outbox.py:212-243 | an outcome arises if and only if it is that of the first ack of an open command |
| Mt5Runs.NewerIsUnseen | copier/src/copier/main.py:3006-3010 | the deals past the watermark are exactly the unreported stretch of the terminal's history |
| Mt5Runs.WatermarkMoves | copier/src/copier/db/repo.py:1686-1701 | the watermark is the last reported ticket and never moves back |
| Mt5Runs.OutcomesCount | copier/src/copier/main.py:2838-2846 | the acks of a sync book the deal of each executed copy command at most once, whether they name it or not, and change nothing but mappings and log |
| Mt5Runs.DealsCount | copier/src/copier/main.py:3100-3138 | the deals of a sync book each unsettled close once, each unsettled entry into an unmapped position once, and forget each settled ticket reported |
| Mt5Runs.RunKeeps | copier/src/copier/main.py:2838-2856 | every run: the settled set is the deals named by acks and not yet reported plus the late ones; every deal has its exact count by ack, as a close and as a fill; every booking is on the acking command's own copy with the deal's volume and position unless the ack misstated them, or is the reported deal's own order, position and volume; the deals of commands given up on are never acked |
| Mt5Exact.LogIsReplayed | copier/src/copier/db/repo.py:1111-1366 | every run: the mappings are the bookings of the log applied in order to the mappings at the start |
| Mt5Exact.MissedIsLogged | copier/src/copier/main.py:2838-2856 | every run: a poll booked a deal on rows without what it was to move, counting from the rows that poll found, if and only if the log replayed from the start shows it |
| Mt5Exact.BookedExactly | copier/src/copier/main.py:2838-2856 | every reported trade moved the rows once and right (its volume taken from its own copy, or added to it on the deal's position, or taken from its own position, oldest first, and no other row moved) if and only if no poll booked it on rows without what it was to move, and: a copy's deal was acked with its position and its volume, and a close also on time and with its deal; a pending copy's fill is an entry and was not passed over. The counts by ack and by report in every case |
| Mt5Exact.PassedOverExactly | copier/src/copier/main.py:3093-3109 | a poll passes a new entry over if and only if nothing settled it and its position is mapped by a row after the poll's acks or named by an open among them |
| Mt5Exact.TimelyIsExact | copier/src/copier/mt5/outbox.py:197-243 | no deal is blind, late, lost, misstated, misplaced or reported unacked if and only if the terminal kept its side in every poll, said of the acks' own fields, and no command the copier gave up on turned out executed |
| Mt5Exact.ExactlyOnce | copier/src/copier/main.py:3073-3138 | with a terminal that keeps its side a reported trade moved the rows exactly once and right if and only if the copier had not given up on its command, no poll booked it on rows without what it was to move and, for a pending copy's fill, it is an entry that was not passed over |
| Mt5Faults.EmptiedCopyIsLost | copier/src/copier/main.py:2896-2902 | for every copy and deal, the run in which an emptying open is never booked |
| Mt5Faults.BlindCloseTwice | copier/src/copier/main.py:2936-2946 | for every copy and deal, the run in which a close acked without its deal moves the mappings twice |
| Mt5Faults.LateCloseTwice | copier/src/copier/main.py:3093-3132 | the same for a close acked after its deal was reported |
| Mt5Faults.PartialFillOverbooked | copier/src/copier/mt5/outbox.py:233-235 | for every copy and deal, the run in which a partly filled close acked without a volume is booked with all the lots asked for |
| Mt5Faults.GivenUpIsForeign | copier/src/copier/mt5/outbox.py:197-210 | for every copy and deal, the run in which the terminal keeps its side and a close the copier gave up on reduces the oldest copies by its report alone |
| Mt5Missed.EmptiedCopyClosesNothing | copier/src/copier/db/repo.py:1208-1221 | for every two copies sharing a net position, the run in which a close by hand is charged to the older one and that copy's own close, acked in full and on time, then moves no row |
| Mt5Missed.AstrayOpenMisplaced | copier/src/copier/main.py:2892-2904 | for every copy and deal, the run in which an open is booked on another position because its ack names that one |
| Mt5Missed.IncreaseLeavesPosition | copier/src/copier/db/repo.py:1111-1174 | for every copy and deal on a hedging account, the run in which an increase, acked in full, repoints the row to the new position with the volume of both |
| Mt5Missed.UnworkedFillIsLost | copier/src/copier/db/repo.py:1604-1635 | for every pending copy the copier gave up on and rows none of which works the order, the run in which its fill is entered and no row moves |
| Mt5Missed.PendingFillCloses | copier/src/copier/main.py:3119-3128 | for every pending copy accepted by the terminal, the run in which its fill against the net position reduces the oldest copies and leaves it unfilled |
| Mt5Missed.PendingFillPassedOver | copier/src/copier/main.py:3105-3109 | for every pending copy accepted by the terminal, the run in which its fill into a mapped position leaves it unfilled |
| Mt5Missed.SecondPartOverwrites | copier/src/copier/db/repo.py:1341-1366 | for every accepted order filled in two deals of one report, the run that leaves its copy with the second part only |
| KillSwitch.OrgRow.RestoreIfUnchanged | copier/src/copier/db/repo.py:386-401 | the compare-and-set on the settings version |
| KillSwitch.OrgRow.RestoreAfterFlatten | copier/src/copier/main.py:2049-2083 | two attempts write at most once, only at the guarded version, whatever errors hide |
| KillSwitch.StepKeepsInv | copier/src/copier/main.py:1997-2039 | every statement of every kill switch and operator keeps the invariant |
| KillSwitch.StaysOff | copier/src/copier/main.py:1997-2039 | in every interleaving copying stays off from a run's pause until an operator turns it on or that run restores it; no other run can |
| KillSwitch.OthersRestoreOnlyAfter | copier/src/copier/main.py:1997-2039 | another run's restore after a run's pause has an operator's on-write, or that run's own restore, between that pause and the other run's beginning |
| KillSwitch.AbortLeavesOff | copier/src/copier/main.py:1998-2003 | a run whose guard read fails after its pause never restores; copying stays off until an operator turns it on |
| KillSwitch.FailsEitherSide | copier/src/copier/main.py:1984-1999 | the runs that fail before and after the pause |
| KillSwitch.AtMostTwoAttempts | copier/src/copier/main.py:2049-2083 | over every run a kill switch tries to restore at most twice, never after an answer, and after an error on the first may try again |
| KillSwitch.RestoresAreSafe | copier/src/copier/main.py:2049-2083 | a restore sits right at the version its run read, at most once, by a run that found copying on |
| KillSwitch.RestoreOverrides | copier/src/copier/main.py:1984-1999 | a restore overrides operator writes made since its run read the setting if and only if the guard it read is not the version its pause alone would have left; it overrides nobody else's |
| KillSwitch.EarlyStopIsOverridden | copier/src/copier/main.py:1984-1998 | the run in which a STOP between the reading of the setting and the pause is undone |
| KillSwitch.StopIsOverridden | copier/src/copier/main.py:1998-1999 | the run in which a STOP between the pause and the guard read is undone |
| KillSwitch.PutsBack | copier/src/copier/main.py:1997-2083 | in every interleaving a kill switch puts copying back if and only if it found it on, an attempt got to the database, and nobody else wrote first since its guard read |
| KillSwitch.OffForGood | copier/src/copier/main.py:1997-2083 | once copying is off and every run that found it on has been overtaken, it stays off until an operator turns it on |
| KillSwitch.OverlapLeavesOff | copier/src/copier/main.py:1997-2083 | the run of two overlapping kill switches, and whatever follows it short of an operator's on-write, leaves copying off |
| Flatten.Summarise | copier/src/copier/main.py:2213-2237 | closed + first-seen still open = first-seen; nothing counted closed is in the last snapshot; no error exactly when it is empty |
| Flatten.SendRound | copier/src/copier/main.py:2188-2199 | one round closes in full exactly the positions and cancels exactly the orders of its snapshot, one request each |
| Flatten.FlattenAccount | copier/src/copier/main.py:2170-2237 | at most four snapshots; round n closes in full the positions and cancels the orders of snapshot n, one request each and no other; only an empty book stops early; the summary is drawn from the first and last snapshot |
| DealFetch.FetchWindow | copier/src/copier/main.py:1453-1492 | every deal of the window is returned or lies in a window reported unreachable; what is returned is every answer in full; each request after the first is for one half of an earlier one that had more; requests = 1 + 2 x splits <= 127 for any broker; below the budget an unreachable window is at most an hour |
| Backfill.WalkHasNoGap | copier/src/copier/engine/backfill.py:32-71 | over every run of ticks the watermarks bound exactly what was fetched, in windows of at most a week |
| Backfill.NoWindow | copier/src/copier/engine/backfill.py:51-71 | no window if and only if exhausted and caught up, or stuck; a stuck account stays so for ever |
| Backfill.WalksBack | copier/src/copier/engine/backfill.py:32-71 | any monotone run of good ticks short of the bound walks back a week a tick and is not exhausted |
| Backfill.WalkGetsStuck | copier/src/copier/main.py:1545-1556 | any such run, followed by ticks that come once the clock alone has passed the bound, leaves the account unfetched for ever |
| Backfill.OutageIsEnough | copier/src/copier/main.py:1545-1556 | for every bound and start some such run is less than a week short of it |
| Backfill.WalkFinishes | copier/src/copier/engine/backfill.py:32-71 | good ticks at one moment walk back a week each, and exactly those that reach the bound exhaust the account |
| Backfill.CatchesUp | copier/src/copier/engine/backfill.py:51-66 | n good ticks at one moment bring an exhausted account n weeks on, or up to that moment |
| Backfill.Rotation.Choose | copier/src/copier/main.py:1521-1540 | the loop finds the first due account from the cursor, none only if none is due, and always moves on |
| Backfill.EveryoneIsChosen | copier/src/copier/main.py:1521-1560 | over n ticks on n accounts an account always due is chosen |
| EngineMaps.Engines.Fill | copier/src/copier/main.py:910-917 | refills an org's map in place: same object, no other org touched |
| EngineMaps.Engines.SetTracker | copier/src/copier/main.py:1318-1327 | a live tracker of this master is left alone; any other is replaced by one holding the org's own map, or by none when no connection can serve it |
| EngineMaps.Engines.ReloadOrg | copier/src/copier/main.py:1294-1327 | one org's engines name its master and show its cache; no other org changes |
| EngineMaps.Engines.Retire | copier/src/copier/main.py:1332-1337 | orgs without a master lose all three engines |
| EngineMaps.Engines.Reload | copier/src/copier/main.py:1286-1337 | aliasing survives; no org without a master remains; every org whose master account was loaded is served, with a live tracker exactly when a connection can serve it or one was there; the others keep what they had; so an org's engines name its master if and only if it was loaded or they named it before |
| EngineMaps.Engines.Build | copier/src/copier/main.py:3515-3533 | every routed org gets engines sharing one fresh map |
| RateLimiter.LoginRateLimiter.Limited | api/src/api/auth.py:194-220 | the object computes the modelled call |
| RateLimiter.SweepingChangesNothing | api/src/api/auth.py:202-220 | sweeping, not sweeping and a log never pruned give the same answers over every clocked run |
| RateLimiter.NeverOverLimit | api/src/api/auth.py:213-219 | the log never has more than the limit of a key in any half-open window |
| RateLimiter.AdmitsWithinLimit | api/src/api/auth.py:188-220 | so what the sweeping limiter admits from empty never exceeds the limit in any window |
| RateLimiter.RefusedExactly | api/src/api/auth.py:194-220 | over every run from empty a call is refused if and only if as many calls of its key as the limit were let through less than a window ago |
| RateLimiter.CallBounded | api/src/api/auth.py:207-211 | a call leaves at most `sweepAt` keys, and `sweepAt` is unchanged or max(1024, twice the live keys) |
| RateLimiter.MemoryBounded | api/src/api/auth.py:207-211 | after every run at most `sweepAt` keys, and `sweepAt` is its starting value or max(1024, twice the keys live at some call of the run) |
| OAuth.StateTable.Issue | api/src/api/oauth.py:88-106 | sweep, then insert unless the hash exists |
| OAuth.StateTable.Consume | api/src/api/oauth.py:178-196 | the guarded UPDATE of a callback with a state |
| OAuth.StateTable.ConsumeLatest | api/src/api/oauth.py:233-250 | consumes the newest pending row of the session, or none exists |
| OAuth.StepKeeps | api/src/api/oauth.py:175-261 | every statement keeps the bookkeeping of issued, consumed and stored |
| OAuth.SingleUse | api/src/api/oauth.py:165-261 | in every interleaving a nonce is consumed at most once, by its session, within the TTL; connections <= nonces consumed, each in the org its nonce was issued for |
| OAuth.SweepingIsInvisible | api/src/api/oauth.py:88-97 | runs with and without sweeps decide every callback alike while no sweep is more than one instant newer than a callback's clock reading |
| OAuth.SweepChanges | api/src/api/oauth.py:88-97 | which decisions a sweep changes on any table: accepting a state, refusing to guess, the row taken, each if and only if |
| OAuth.SweepHarmless | api/src/api/oauth.py:88-97 | a sweep changes no decision on any table if and only if it is at most one instant newer than the callback's reading |
| OAuth.SweepTurnsAway | api/src/api/oauth.py:178-196 | for every sweep newer than that, the run in which a callback is refused when swept and granted when not |
| OAuth.TakesWhatItCounted | api/src/api/oauth.py:210-250 | the row taken is the one pending row that was counted if and only if no connect between the count and the take issued it |
| OAuth.GuessesAcrossConnect | api/src/api/oauth.py:210-250 | the run in which a connect in between lands the grant in the other org |
| BodyLimit.Middleware.CountedReceive | api/src/api/body_limit.py:83-95 | what the app is handed for each message |
| BodyLimit.Middleware.GuardedSend | api/src/api/body_limit.py:97-103 | what of the app's messages goes through |
| BodyLimit.TraceIsReference | api/src/api/body_limit.py:79-103 | for every app and chunking both sides see exactly the reference traces cut where the body passes the limit |
| BodyLimit.NeverOverLimit | api/src/api/body_limit.py:88-94 | no app is handed more than the limit |
| BodyLimit.OneAnswer | api/src/api/body_limit.py:91-103 | at most one response start reaches the client, and exactly the 413 pair if the limit was passed before the app began |
| Ticks.MarkRows | dashboard/src/lib/ticks.ts:46-56 | the rows loop equals the pointwise specification |
| Ticks.MergeTicksIntoSnapshot | dashboard/src/lib/ticks.ts:32-62 | the merge equals the pointwise specification; the original is handed back exactly when no compared field differs |
| Ticks.LastMarkWins | dashboard/src/lib/ticks.ts:41 | of duplicate marks the last one counts |
| Ticks.MergeTwice | dashboard/src/lib/ticks.ts:32-62 | merging the same tick again changes nothing |
| Ticks.KeepsStructure | dashboard/src/lib/ticks.ts:23-31 | same accounts, same positions in order, all other fields kept; equal exactly when nothing differs |
| Ticks.MergeFollows | dashboard/src/lib/ticks.ts:32-62 | an account takes equity and open result from its tick, null included, and keeps what the tick leaves out; each position follows the last mark for it; whatever no tick speaks of is as it was |
| Ticks.MergeStateFollows | dashboard/src/lib/ticks.ts:69-96 | the same on the page state, the master's rows following the pooled marks |
| Ticks.MergeTicksIntoApiState | dashboard/src/lib/ticks.ts:69-96 | the page state: accounts merged one by one, master rows from the pooled marks of all accounts; handed back unchanged exactly when nothing differs |
| Ticks.LastAccountWins | dashboard/src/lib/ticks.ts:73-76 | across accounts the last one listed with a mark for the position wins |
| Ticks.MergeStateTwice | dashboard/src/lib/ticks.ts:69-96 | merging the same tick again finds nothing new |
| Perf.DrawdownSeries | dashboard/src/lib/perf.ts:16-22 | one pass computes balance minus running peak |
| Perf.LowestIsLargestFall | dashboard/src/lib/perf.ts:15-22 | the lowest drawdown is minus the largest fall over i <= j, and is attained |
| Perf.DailyPnl | dashboard/src/lib/perf.ts:30-51 | the baseline loop equals adding each point's change to its day's bar; the bars telescope to the last cumulative value |
| Perf.BarsTelescope | dashboard/src/lib/perf.ts:9-51 | bars add up to the last cumulative value, sorted curve or not |
| Perf.BarForEveryDay | dashboard/src/lib/perf.ts:24-29 | exactly the days that occur have a bar |
| Perf.DaysIncrease | dashboard/src/lib/perf.ts:30-51 | on a time-sorted curve bar days strictly increase |
| Perf.BarIsDayTotal | dashboard/src/lib/perf.ts:24-51 | on a time-sorted curve each bar is the total change of its day |
| Protection.NetsExactly | dashboard/src/lib/protection.ts:91-105 | before rounding the price nets exactly the amount after the commission itself, when one is known and positive, and after none otherwise |
| Protection.RoundsWithinHalfTick | dashboard/src/lib/protection.ts:110-119 | rounding moves a price by at most half a quoted tick |
| Protection.NetsWithinHalfTick | dashboard/src/lib/protection.ts:79-119 | the price sent is a whole number of quoted ticks and nets the amount within units x half a tick |
| Protection.FeeMoves | dashboard/src/lib/protection.ts:53-61 | a larger fee moves a target away from entry and a stop toward it |
| Protection.RefusedWhenImpossible | dashboard/src/lib/protection.ts:79-108 | over all inputs, refused if and only if there is nothing to compute with, a stop is not above its fee, or a level on the falling side would not be above zero before rounding |
| Protection.SentAboveZero | dashboard/src/lib/protection.ts:107-119 | the price sent is never negative, and above zero if and only if the level is at least half a quoted tick |
| Protection.ZeroIsSent | dashboard/src/lib/protection.ts:107-119 | a stop that is sent as 0 |

## Left out

- Hashing, encryption, cookies, notifications, audit rows and HTTP plumbing: a check is a boolean, a digest a tag.
- Mpin: a call longer than the lock itself is not covered; the row of a deleted user and the format gate of `require_mpin` are not modelled.
- Portal: one investor of one org; account linking and unlinking, payout destinations and the per-route rate limit are inputs of a step.
- BonusCredit.RunSafe: assumes no trading loss, money moved at the broker before a transfer is marked done, and an equity reading sound by `StaleReadExact`; without the last it is false (`LeakFromEmpty`). It speaks of credit on the books; the rest is `AllCreditStays` and `StrandedLeaks`.
- Mt5Runs: one process lifetime, since the settled set is in memory only; a terminal whose deal tickets grow, that reports without gaps and executes a copy command as one deal of its own. A copy's row is there from the start of a run, holding nothing until it is activated, accepted or filled; client order ids are unique (db/migrations/001_initial.sql:45).
- Mt5App.Follower.Poll: a refused or given-up open marks its row, which holds no volume, as failed; that mark, the degraded status, protection overrides, fill prices and the master side of a sync are not modelled.
- Net ledger of a netting master (virtual positions and their persistence): not modelled.
- KillSwitch: the per-account kill switch writes no setting and is not modelled; kill switches of one process do not interleave between their first three statements.
- Flatten.FlattenAccount: waits and pacing are not modelled; the MT5 lane's variant skips closes already queued.
- DealFetch.FetchWindow: a fetch that raises ends the tick and is a failed tick in `Backfill`.
- EngineMaps.Engines: object identity is an explicit reference; broker clients are reduced to whether one exists.
- RateLimiter: a clock that runs backwards; keys are compared for equality only.
- OAuth: one clock for the api and the database; a fresh nonce never repeats.
- BodyLimit.TraceIsReference: an app with two receives outstanding at once is not modelled, nor the early refusal by declared length.
- Ticks: `NaN` is not modelled; the order in which ticks list their accounts is an input.
- Perf.DailyPnl: the local calendar day is any function of the timestamp.
- Protection: binary floating point; `units` is positive, as `unitsFor` gives it.
- Trailing stops, commission learning, reconciliation, dispatch, sockets and the user interface.
