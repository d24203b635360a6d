# dailycoin in Dafny

This project models the dailycoin token contract for EOSIO. It is an `eosio.token`
derivative. Every holder of the coin (`XDL`, four decimals) can claim one coin of basic
income per day. Up to 360 past days accumulate, and days beyond that are lost. Until
January 1st, 2021 a first claim also pays a signup reward: one coin for each day left
until that date, at most 360 (on days 1 to 360 a first claim pays nothing, because the
16-bit day arithmetic wraps around). Holders can route percentages of their income to other accounts through
an income share table.

The model has two layers:

- **Pure.** The contract's three kinds of tables form one value, `Tables.Ledger`:
  - the `stat` rows, keyed by symbol code;
  - each owner's `accounts` rows;
  - each owner's share table.

  Every action is a function from a ledger to a `Step`, which holds an outcome and the
  ledger after the action. A failed `check` aborts the whole transaction, so the ledger
  after an abort is the ledger before it (`Actions`).
- **Imperative.** `Contract.Token` is a class whose fields are the three tables. Its
  methods do what the C++ does, step by step:
  - the share loop of `try_ubi_claim`;
  - the summing loop of `setshare`;
  - the erase loop of `resetshare`.

  Each method is proved equal to the corresponding pure function. The action methods
  (`Create` through `ResetShare`) also keep the class invariant. The internal steps
  `TryUbiClaim`, `PayClaim`, `PayShares`, `AddBalance`, `SubBalance`, `MoveTokens`,
  `CreditIssuer`, `IssueChecked`, `TakeOutOfSupply` and `Restore` are only proved equal to
  their pure counterparts.

Modules, one per file:

- `Types`: the constants, `time_type` and the table rows of `dailycoin.hpp`, and
  `get_today`.
- `Calendar`: `days_to_string` and the memo of `log_claim`.
- `Shares`: an income share table and the row edit of `setshare`.
- `Claim`: the arithmetic of `try_ubi_claim` and how it splits a claim across the shares.
- `Tables`: the ledger, `add_balance` and `sub_balance`, and the sum of the balances of
  a token.
- `Actions`: every action, as a function.
- `Invariants`: what every action preserves. Each supply is the sum of the balances of its
  token, between zero and the maximum supply. The burned total is not negative but has no
  upper bound, because it only grows. Balances are not negative. Share tables are
  ordered, total at most 100% and never name their owner.
- `Properties`: one action at a time, when it succeeds and what it changes.
- `Runs`: any sequence of actions. The invariant holds throughout, and the stats rows only
  grow.
- `Contract`: the imperative contract class.

Facts about the code that shape the model:

- **No demurrage.** Balances do not decay over time. No balance changes except through an
  action.
- **The last claim day is not always today.** A claim moves the last claim day to the
  start day plus the lost days plus the whole coins paid. When the max-supply clamp cuts
  the payment, this falls short of today (`Claim.PlanClaim`).
- **The stats row follows `dailycoin.cpp`.** The `currency_stats` row in `dailycoin.hpp`
  (lines 103-109) has no `burned` or `claims` field. `dailycoin.cpp` reads and writes both
  (lines 29-30, 87, 199 and 402), so `Types.CurrencyStats` carries them.
- **Not every action is dispatched.** `EOSIO_DISPATCH` (`dailycoin.cpp:521`) lists only
  create, issue, transfer, open, close, retire, claim, burn and income. So `setshare`,
  `resetshare` and `claimfor` are defined in `dailycoin.cpp` but not reachable through the
  dispatcher. The
  model still defines them as the code writes them, and includes them in `Runs.Action`.

## Model

| member | source | states |
|---|---|---|
| Types.PrecisionMultiplierMatchesPrecision | dailycoin.hpp:88-89 | `PRECISION_MULTIPLIER` is 10 to the power `SYMBOL_PRECISION`, so one whole coin is 10000 base units |
| Types.ToTimeType | dailycoin.hpp:94 | the `uint16_t` conversion gives the value congruent to the input modulo 2^16, and keeps values already in range |
| Types.GetTodayContainsInstant | dailycoin.hpp:123 | while the clock is below 2^16 days, `get_today` is the day containing the instant: `today*86400 <= secs < (today+1)*86400` |
| Types.GetTodayWraps | dailycoin.hpp:123 | past 2^16 days the day number wraps: the day of `secs + 2^16 days` equals the day of `secs` |
| Calendar.CivilRanges | dailycoin.cpp:496-504 | the intermediate values of the date conversion stay in the ranges the code's comments give (doe, yoe, doy, mp, day and month) |
| Calendar.CivilDateIsValid | dailycoin.cpp:496-504 | every day number converts to a valid Gregorian date: month 1..12, and a day that exists in that month and year, leap years included |
| Calendar.CivilRoundTrip | dailycoin.cpp:496-504 | days_from_civil of the converted date gives back the day number, so distinct days give distinct dates |
| Calendar.NatToString | dailycoin.cpp:506 | `std::to_string` of a natural number is all digits, a single digit exactly for n < 10, and does not start with '0' when n >= 10 |
| Calendar.NatToStringRoundTrip | dailycoin.cpp:506 | the decimal value of the rendering is the number |
| Calendar.IntToStringRoundTrip | dailycoin.cpp:515 | a signed rendering reads back as the number |
| Calendar.Pad2 | dailycoin.cpp:506-512 | a number below 100 is padded to exactly two digits that read back as the number |
| Calendar.FormatDateParses | dailycoin.cpp:506-516 | the string is `DD-MM-Y`: two digits, '-', two digits, '-', the year, and it parses back to the date |
| Calendar.DaysToStringDecodes | dailycoin.cpp:492-517 | `days_to_string` determines its day: parsing the string and converting back gives `days` |
| Calendar.LastSignupRewardDayIsNewYear2021 | dailycoin.hpp:127 | day 18628 renders as "01-01-2021", as the comment says |
| Calendar.DateStringLength | dailycoin.cpp:465 | the day after any `time_type` day renders in exactly 10 characters |
| Calendar.ClaimMemoReports | dailycoin.cpp:462-470 | the memo starts "next on " followed by the date of the day after the new last claim day; it is 18 characters long exactly when no days were lost; otherwise ", lost N days of income." follows, and N reads back as the lost days |
| Shares.PercentBeforeNext | dailycoin.cpp:238-244 | the running sum of the `setshare` loop adds the rows one at a time, in table order |
| Shares.PercentBeforeGrows | dailycoin.cpp:429 | the running percent of the share loop never decreases |
| Shares.SetEntryAscending | dailycoin.cpp:218-235 | the row edit of `setshare` keeps the table in strictly ascending key order, one row per beneficiary |
| Shares.SetEntryMap | dailycoin.cpp:218-235 | after the edit, the table as a map gives `to` the percent, or drops `to` when the percent is zero, and leaves every other beneficiary alone |
| Shares.SetEntrySum | dailycoin.cpp:218-244 | the new total is the old total minus the old percent of `to` plus the new percent |
| Claim.PlanClaim | dailycoin.cpp:339-409 | nothing is pending exactly when the last claim day is today or later; otherwise the payment is the owed amount clamped to what the maximum supply leaves (nothing to pay exactly when that clamp is not positive, and a payment equals it); a payment is positive, at most 361 coins and within the maximum supply; the new last claim day is the baseline plus the lost days plus the whole coins paid, and is at most today |
| Claim.LostDaysAreTheExcess | dailycoin.cpp:368-379 | on a paying claim, the lost days are exactly the owed days beyond 360 |
| Claim.FirstClaimAfterRewardPeriod | dailycoin.cpp:353-354 | after day 18628, a first claim pays exactly one coin (when the supply allows) and moves the last claim day to today |
| Claim.FirstClaimDuringRewardPeriod | dailycoin.cpp:353-362 | up to day 18628, from day 361 on, a first claim also pays one coin per day left until day 18628, at most 360 of them, and catches up to today |
| Claim.FirstClaimBeforeDay361PaysNothing | dailycoin.cpp:353-394 | on days 1..360 the pushed-back baseline wraps around in `uint16_t`, and a first claim pays nothing |
| Claim.ReturningClaim | dailycoin.cpp:364-409 | when the supply allows it, a returning claimer is paid for the days since the last claim, at most 360 past days plus today; the excess days are lost, and the last claim day becomes today |
| Claim.SecondClaimSameDayFindsNothing | dailycoin.cpp:341-345 | a payment the cap did not cut moves the last claim day to today, so a second claim that day finds nothing pending |
| Claim.PaidClaimAdvances | dailycoin.cpp:407-409 | for a returning claimer, a paying claim moves the last claim day to a day between the old one and today |
| Claim.SplitConserves | dailycoin.cpp:419-458 | while the running percent is below 100, the share loop credits no negative amount, and its credits add up to exactly what was available |
| Claim.PayoutConserves | dailycoin.cpp:419-458 | a positive claim is paid out in full across the share recipients and the claimer, and no credit is negative |
| Claim.SplitPortions | dailycoin.cpp:437 | a share whose running percent stays below 100 receives its percent of the claim, truncated |
| Claim.SplitAbsorber | dailycoin.cpp:431-433 | the first share whose running percent reaches 100 takes everything left, and the loop ends |
| Claim.SplitResidue | dailycoin.cpp:456-458 | when the percents never reach 100, the claimer receives what the shares leave, as the last credit |
| Claim.PayoutShape | dailycoin.cpp:419-458 | the payout as a whole: portions below 100%, then the absorbing share or the claimer's residue |
| Tables.AddBalance | dailycoin.cpp:302-316 | the owner's row of the token exists afterwards, and its balance grows by the value; an existing row keeps its last claim day and symbol, a new row starts with last claim day 0 and the value's symbol; the owner's other tokens, the stats, the shares and every other owner's rows are unchanged |
| Tables.SubBalance | dailycoin.cpp:291-300 | succeeds exactly when the owner has a row holding at least the value, and then lowers it by the value, keeping the row's last claim day and symbol; on abort nothing changes; the owner's other tokens and every other owner are untouched |
| Tables.CreditAll | dailycoin.cpp:446-458 | the claim's credits, applied with `add_balance` one after the other, change no stats row and no share table |
| Tables.CreditAllKeepsRow | dailycoin.cpp:302-316 | crediting never removes a row and never moves a last claim day |
| Tables.AddBalanceTotal | dailycoin.cpp:302-316 | `add_balance` raises the sum of its token's balances by the value, and no other token's |
| Tables.SubBalanceTotal | dailycoin.cpp:291-300 | `sub_balance` lowers the sum of its token's balances by the value, and no other token's |
| Tables.CreditAllTotal | dailycoin.cpp:446-458 | the claim's credits raise the sum of the token's balances by their total |
| Tables.CreditAllBalance | dailycoin.cpp:446-458 | the claim's credits raise each owner's balance of the token by exactly what is addressed to that owner, and leave every other token's balance alone |
| Tables.ReceivedNonNegative | dailycoin.cpp:446-458 | credits that are not negative give every owner a non-negative sum |
| Actions.UbiClaim | dailycoin.cpp:318-459 | aborts exactly when there is no row ("no balance object found"), or when `fail` is set and nothing is to be paid; an abort changes nothing; with nothing to pay and `fail` unset the tables are unchanged; on success the claimer's row still exists |
| Actions.Create | dailycoin.cpp:10-32 | an abort changes nothing |
| Actions.Transfer | dailycoin.cpp:93-120 | an abort changes nothing |
| Actions.Issue | dailycoin.cpp:35-64 | an abort changes nothing (when it succeeds and what it changes: `Properties.IssueToIssuer` and `Properties.IssueToOther`) |
| Actions.Retire | dailycoin.cpp:66-91 | an abort changes nothing |
| Actions.Burn | dailycoin.cpp:180-203 | an abort changes nothing |
| Actions.Open | dailycoin.cpp:122-143 | succeeds exactly for a created token with its exact symbol, and then leaves the owner with a row of it; an abort changes nothing; an owner whose row was already claimed today is left as it was |
| Actions.ClaimIncome | dailycoin.cpp:160-172 | `claim` succeeds exactly when the coin has been created with its symbol, and then the claimer has a coin row; an abort changes nothing; a claimer whose row was already claimed today is left as it was |
| Actions.ClaimFor | dailycoin.cpp:174-178 | as `claim`, for the named owner: succeeds exactly when the coin exists with its symbol, then the owner has a coin row; an abort changes nothing; a row already claimed today is left as it was |
| Actions.Close | dailycoin.cpp:145-158 | an abort changes nothing |
| Actions.SetShare | dailycoin.cpp:210-245 | an abort changes nothing |
| Actions.ResetShare | dailycoin.cpp:247-255 | always succeeds; the owner's share table is empty afterwards; the balances, the stats and every other owner's shares are unchanged |
| Actions.GetSupply | dailycoin.hpp:62-67 | returns a value exactly when the token has a stats row, and that value is the token's current supply |
| Actions.GetBalance | dailycoin.hpp:69-74 | returns a value exactly when the owner has a row of the token, and that value is the row's balance |
| Invariants.SupplyIsHeld | dailycoin.hpp:62-67 | under the invariant, `get_supply` of a created token returns the sum of the token's balances, between zero and the maximum supply; a token without a stats row has no balances |
| Invariants.BalanceWithinSupply | dailycoin.cpp:302-316 | under the invariant, every balance of a token is between zero and its supply |
| Invariants.PayClaimPreserves | dailycoin.cpp:396-458 | booking and paying out a claim keeps the invariant: the supply rises by exactly what the holders receive, and stays within the maximum |
| Invariants.UbiClaimPreserves | dailycoin.cpp:318-459 | `try_ubi_claim` keeps the invariant |
| Invariants.CreatePreserves | dailycoin.cpp:10-32 | `create` keeps the invariant |
| Invariants.TransferPreserves | dailycoin.cpp:93-120 | `transfer` keeps the invariant |
| Invariants.RaisedPreserves | dailycoin.cpp:53-57 | raising the supply and crediting the issuer keeps the invariant |
| Invariants.IssuePreserves | dailycoin.cpp:35-64 | `issue` keeps the invariant |
| Invariants.RetiredPreserves | dailycoin.cpp:83-90 | lowering the supply and taking the quantity from a holder keeps the invariant |
| Invariants.RetirePreserves | dailycoin.cpp:66-91 | `retire` keeps the invariant |
| Invariants.BurnPreserves | dailycoin.cpp:180-203 | `burn` keeps the invariant |
| Invariants.OpenPreserves | dailycoin.cpp:122-143 | `open` keeps the invariant |
| Invariants.ClosePreserves | dailycoin.cpp:145-158 | `close` keeps the invariant |
| Invariants.SetSharePreserves | dailycoin.cpp:210-245 | `setshare` keeps the share tables ordered, at most 100% in total and free of self-shares |
| Invariants.ResetSharePreserves | dailycoin.cpp:247-255 | `resetshare` keeps the invariant |
| Properties.UbiClaimPays | dailycoin.cpp:396-458 | a claim with coins to pay succeeds; the supply rises by the amount and the claim count by one; the claimer's last claim day becomes the planned one; the holdings grow by the amount; the share tables are unchanged |
| Properties.UbiClaimNothingPending | dailycoin.cpp:341-345 | with nothing pending, a claim changes nothing, and with `fail` it aborts with "no pending income to claim" |
| Properties.SecondClaimSameDayAborts | dailycoin.cpp:341-345 | with `fail` set, a claim paid in full is the only one of the day: `try_ubi_claim` again the same day aborts with "no pending income to claim" |
| Properties.SecondClaimSameDayIsNoOp | dailycoin.cpp:160-172 | when the maximum supply does not cut the payment, a second `claim` the same day succeeds and changes nothing |
| Properties.UbiClaimBalance | dailycoin.cpp:419-458 | a claim changes each owner's balance of the token by exactly the payout credits addressed to it, and no other token's balance |
| Properties.UbiClaimStats | dailycoin.cpp:396-409 | a claim books its payout in the token's stats row: the supply rises by the total paid out and, when it paid, the claim count by one; no other stats row and no share table changes |
| Properties.TransferMoves | dailycoin.cpp:116-119 | a successful transfer settles the sender's claim, then moves exactly the quantity from sender to receiver and touches no other account |
| Properties.TransferSucceeds | dailycoin.cpp:93-120 | `transfer` succeeds exactly when sender and receiver differ, the token exists, the quantity is positive with the right symbol, the memo fits, and the sender holds enough once its income is settled |
| Properties.TransferBalances | dailycoin.cpp:93-120 | a successful transfer changes each owner's balance by what the sender's claim pays it, less the quantity for the sender and plus it for the receiver; the supply grows by the claim alone |
| Properties.TransferOtherToken | dailycoin.cpp:93-120 | a successful transfer leaves every balance of another token unchanged |
| Properties.TransferKeepsOtherTokens | dailycoin.cpp:116-119 | debiting the sender and crediting the receiver leaves every balance of another token unchanged |
| Properties.TransferFrame | dailycoin.cpp:93-120 | a successful transfer changes the token's stats row only by the sender's claim (supply and, when it paid, the claim count), and no other stats row, share table or balance of another token |
| Properties.IssueToIssuer | dailycoin.cpp:35-64 | `issue` to the issuer succeeds exactly when the memo fits, the quantity is positive with the right symbol, and it stays within the maximum supply; then supply and issuer balance rise by the quantity, the stats row changes only in its supply, the issuer's row keeps its last claim day (a new row starts at 0), and no other stats row, account row or share table changes |
| Properties.IssueSettlesIssuer | dailycoin.cpp:53-63 | once a well-formed issue has credited the issuer, the inline transfer to another receiver always succeeds, and `issue` is that transfer |
| Properties.IssuerCredited | dailycoin.cpp:53-57 | issuing first raises the stats row's supply and the issuer's balance by the quantity, and changes no other balance, stats row or share table |
| Properties.IssueToOther | dailycoin.cpp:35-64 | `issue` to another receiver succeeds exactly when the memo fits, the quantity is positive with the right symbol, and it stays within the maximum supply; then every owner's balance of the token changes by what the issuer's claim pays it, plus the quantity for the receiver, so the issuer's share beneficiaries gain their portions and everyone else nothing; the supply rises by the quantity plus the claim |
| Properties.IssueToOtherStats | dailycoin.cpp:35-64 | after a well-formed `issue` to another receiver, the token's supply has risen by the quantity plus the issuer's claim, its claim count by one when the claim paid, and no other stats row has changed |
| Properties.IssueToOtherFrame | dailycoin.cpp:35-64 | a well-formed `issue` to another receiver changes no share table and no balance of another token |
| Properties.RetireEffect | dailycoin.cpp:66-91 | `retire` succeeds exactly when the issuer holds enough of a well-formed quantity; then supply and issuer balance drop by it and the burned total rises by it, no other stats field or row changes, the issuer's row keeps its last claim day, and no other account row or share table changes |
| Properties.BurnEffect | dailycoin.cpp:180-203 | `burn` succeeds exactly when the owner holds enough of a well-formed quantity; then supply and owner balance drop by it and the burned total rises by it, no other stats field or row changes, the owner's row keeps its last claim day, and no other account row or share table changes |
| Properties.CloseEffect | dailycoin.cpp:145-158 | `close` succeeds exactly for an existing empty row not claimed today, after the reward period, and erases that row alone; the stats and share tables are unchanged |
| Properties.SetShareEffect | dailycoin.cpp:210-245 | `setshare` succeeds exactly for a percent of at most 100, a beneficiary other than the owner, and a new total of at most 100; then only the beneficiary's entry in the owner's table changes, and no other owner's table, stats row or account row |
| Properties.CreateEffect | dailycoin.cpp:10-32 | `create` succeeds exactly for a positive maximum, precision 4 and a new symbol; it adds one stats row with supply 0, the given maximum and issuer, burned 0 and no claims, and changes nothing else |
| Runs.ApplyGrows | dailycoin.cpp:10-255 | no action removes a token, changes its maximum supply, issuer or symbol, or lowers its burned total or claim count |
| Runs.ApplyPreserves | dailycoin.cpp:10-255 | every action keeps the invariant |
| Runs.RunPreserves | dailycoin.cpp:10-255 | along any sequence of actions the invariant holds and the stats rows only grow |
| Contract.Token.constructor | dailycoin.hpp:111-112 | the tables start empty and satisfy the invariant |
| Contract.Token.Restore | dailycoin.cpp:236-244 | puts back the tables an action started from, as the transaction does when a `check` fails after rows were changed (the share total check of `setshare`) |
| Contract.Token.AddBalance | dailycoin.cpp:302-316 | updates the owner's row in place exactly as `Tables.AddBalance` |
| Contract.Token.SubBalance | dailycoin.cpp:291-300 | updates the row in place, or aborts, exactly as `Tables.SubBalance` |
| Contract.Token.PayShares | dailycoin.cpp:419-458 | the share loop credits exactly the payout `Claim.Payout`, with a loop invariant relating what is still to credit to the split of the rest of the table |
| Contract.Token.TryUbiClaim | dailycoin.cpp:318-459 | computes and books the claim exactly as `Actions.UbiClaim` |
| Contract.Token.PayClaim | dailycoin.cpp:396-458 | books the claim in the stats row and the claimer's row in place, then runs the share loop, exactly as `Actions.PayClaim` |
| Contract.Token.Create | dailycoin.cpp:10-32 | behaves as `Actions.Create` and keeps the invariant |
| Contract.Token.Transfer | dailycoin.cpp:93-120 | behaves as `Actions.Transfer` and keeps the invariant |
| Contract.Token.MoveTokens | dailycoin.cpp:93-119 | the checks of `transfer`, the sender's claim, the debit and the credit, in place, exactly as `Actions.Transfer` |
| Contract.Token.Issue | dailycoin.cpp:35-64 | behaves as `Actions.Issue` and keeps the invariant |
| Contract.Token.CreditIssuer | dailycoin.cpp:53-57 | raises the supply and credits the issuer in place, exactly as `Tables.AddBalance` of `Actions.Raised` |
| Contract.Token.IssueChecked | dailycoin.cpp:53-63 | once the checks pass, credits the issuer and, for another receiver, runs the transfer and restores the tables if it aborts, exactly as the tail of `Actions.Issue` |
| Contract.Token.Retire | dailycoin.cpp:66-91 | behaves as `Actions.Retire` and keeps the invariant |
| Contract.Token.Burn | dailycoin.cpp:180-203 | behaves as `Actions.Burn` and keeps the invariant |
| Contract.Token.TakeOutOfSupply | dailycoin.cpp:85-88 | lowers the supply and raises the burned total in place, exactly as `Actions.Retired` |
| Contract.Token.Open | dailycoin.cpp:122-143 | behaves as `Actions.Open` and keeps the invariant |
| Contract.Token.ClaimIncome | dailycoin.cpp:160-172 | behaves as `Actions.ClaimIncome` and keeps the invariant |
| Contract.Token.ClaimFor | dailycoin.cpp:174-178 | behaves as `Actions.ClaimFor` and keeps the invariant |
| Contract.Token.Close | dailycoin.cpp:145-158 | behaves as `Actions.Close` and keeps the invariant |
| Contract.Token.SetShare | dailycoin.cpp:210-245 | edits the table, then sums its percents in a loop, aborting and restoring above 100%; behaves as `Actions.SetShare` and keeps the invariant |
| Contract.Token.ResetShare | dailycoin.cpp:247-255 | erases the owner's rows one at a time until the table is empty; behaves as `Actions.ResetShare` and keeps the invariant |

## Left out

- Authorization is not modelled: `require_auth` and `has_auth`, `require_recipient`, and
  the `is_account` checks. These depend on the transaction's signatures and on the chain's
  account list. Every action is modelled as if its authorizations held.
- Symbol and name validity (`is_valid`) is not modelled. Symbols are a numeric code plus a
  precision, and names are natural numbers.
- The `asset` overflow and symbol-mismatch assertions inside `asset` arithmetic are left
  out. Amounts are unbounded integers. Under the invariant, supplies and balances stay
  within a maximum supply that the contract itself bounds. The burned total is the one
  amount with no such bound: it adds up everything ever retired or burned.
- Actions.Retire: the source aborts with "addition overflow" once the burned total would
  pass 2^62-1 units, the largest `asset` amount (cpp:86 adds to `burned`). The model's
  burned total is unbounded, so `retire` succeeds there.
- Actions.Burn: the same abort, from the addition to `burned` at cpp:198, is not modelled.
- Properties.RetireEffect: "succeeds exactly when" leaves out the abort once more than
  2^62-1 units have been retired or burned in total.
- Properties.BurnEffect: "succeeds exactly when" leaves out the same abort.
- RAM payers (`same_payer`, `payer`, `ram_payer`) decide who pays for storage. They are
  parameters that change nothing in the tables.
- The notifications are not modelled: the `income` notification of `log_claim`, the share
  notification of `log_share`, and the `income` and `shareincome` handlers. They only
  notify accounts and change no table. Their memo text is modelled
  (`Calendar.ClaimMemo`), but the sending is not.
- The inline `transfer` that `issue` sends to a recipient other than the issuer is modelled
  as a sequential call in the same transaction. Its failure aborts the `issue`
  (`Actions.Rollback`).
- `setprofile` is not modelled: it only stores profile text.
- The dispatcher (`EOSIO_DISPATCH`) is not modelled. See the note above about actions it
  does not list.
- The clock is a parameter. `today` is passed to each action, and `Types.GetToday` models
  `get_today` from a seconds count.
- Memo strings are sequences of characters. The byte length `size()` is modelled as the
  sequence length.
- Calendar.ClaimMemoReports: the lost-days number is stated to read back as the lost days.
  The date is stated only as the rendering of the next day. That the rendering decodes to
  that day is the separate lemma `Calendar.DaysToStringDecodes`.
