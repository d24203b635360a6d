/**
 * The contract's actions as functions from the tables before to the tables after. A failed
 * `check` aborts the whole transaction, so an action that aborts leaves the tables as they
 * were, even when it had already changed some rows.
 */
module Actions {
  import opened Types
  import opened Shares
  import opened Claim
  import opened Tables

  /** Memos longer than this many bytes are refused. */
  const MAX_MEMO_SIZE: int := 256

  /** The transaction's rollback: an aborted step leaves `before` in place. */
  function Rollback(before: Ledger, step: Step): Step
  {
    if step.outcome.Ok? then step else Step(step.outcome, before)
  }

  /** A claim is booked: the supply and claim count rise and the claimant's last claim day moves. */
  function Claimed(ledger: Ledger, from: Name, sym: Symbol, amount: int, newLastClaimDay: TimeType): Ledger
    requires sym.code in ledger.stats && sym.code in RowsOf(ledger.accounts, from)
  {
    var st := ledger.stats[sym.code];
    var rows := RowsOf(ledger.accounts, from);
    ledger.(
      stats := ledger.stats[sym.code := st.(supply := Asset(st.supply.amount + amount, st.supply.sym), claims := st.claims + 1)],
      accounts := ledger.accounts[from := rows[sym.code := rows[sym.code].(lastClaimDay := newLastClaimDay)]])
  }

  /** A claim pays: it is booked, then the payout is credited to the shares and the claimant. */
  function PayClaim(ledger: Ledger, from: Name, sym: Symbol, amount: int, newLastClaimDay: TimeType): Ledger
    requires sym.code in ledger.stats && sym.code in RowsOf(ledger.accounts, from)
  {
    CreditAll(Claimed(ledger, from, sym, amount, newLastClaimDay), Payout(amount, SharesOf(ledger, from), from), sym)
  }

  /** The claim plan of an owner's row, against the token's current supply. */
  function PlanFor(ledger: Ledger, from: Name, sym: Symbol, today: TimeType): ClaimPlan
    requires sym.code in ledger.stats && sym.code in RowsOf(ledger.accounts, from)
  {
    var st := ledger.stats[sym.code];
    PlanClaim(RowsOf(ledger.accounts, from)[sym.code].lastClaimDay, today, st.supply.amount, st.maxSupply.amount)
  }

  /**
   * `try_ubi_claim`: settles the pending income of `from` in token `sym`. With `fail`, finding
   * nothing to pay aborts; without it, it is a silent no-op.
   */
  function UbiClaim(ledger: Ledger, from: Name, sym: Symbol, today: TimeType, fail: bool): (r: Step)
    requires sym.code in ledger.stats
    ensures r.outcome.Abort? ==> r.after == ledger
    ensures r.outcome.Abort? <==>
              (sym.code !in RowsOf(ledger.accounts, from) || (fail && !PlanFor(ledger, from, sym, today).Pay?))
    ensures r.outcome.Ok? ==> sym.code in RowsOf(r.after.accounts, from)
    ensures sym.code in RowsOf(ledger.accounts, from) && PlanFor(ledger, from, sym, today).NoCoins? ==>
              r == Step(if fail then Abort("no coins") else Ok, ledger)
  {
    if sym.code !in RowsOf(ledger.accounts, from) then Step(Abort("no balance object found"), ledger)
    else
      match PlanFor(ledger, from, sym, today)
      case NothingPending =>
        if fail then Step(Abort("no pending income to claim"), ledger) else Step(Ok, ledger)
      case NoCoins =>
        if fail then Step(Abort("no coins"), ledger) else Step(Ok, ledger)
      case Pay(amount, _, next) =>
        CreditAllKeepsRow(Claimed(ledger, from, sym, amount, next), Payout(amount, SharesOf(ledger, from), from), sym, from, sym.code);
        Step(Ok, PayClaim(ledger, from, sym, amount, next))
  }

  /** The credits a claim pays out: none unless the claimant has a row and a payment is due. */
  function ClaimCredits(ledger: Ledger, from: Name, sym: Symbol, today: TimeType): seq<Credit>
    requires sym.code in ledger.stats
  {
    if sym.code in RowsOf(ledger.accounts, from) && PlanFor(ledger, from, sym, today).Pay?
    then Payout(PlanFor(ledger, from, sym, today).amount, SharesOf(ledger, from), from)
    else []
  }

  /** `create`: registers a token with a zero supply. */
  function Create(ledger: Ledger, issuer: Name, maximumSupply: Asset): (r: Step)
    ensures r.outcome.Abort? ==> r.after == ledger
  {
    var sym := maximumSupply.sym;
    if maximumSupply.amount <= 0 then Step(Abort("max-supply must be positive"), ledger)
    else if sym.precision != SYMBOL_PRECISION then Step(Abort("unsupported symbol precision"), ledger)
    else if sym.code in ledger.stats then Step(Abort("token with symbol already exists"), ledger)
    else Step(Ok, ledger.(stats := ledger.stats[sym.code := CurrencyStats(Asset(0, sym), maximumSupply, issuer, Asset(0, sym), 0)]))
  }

  /**
   * `transfer`: settles the sender's pending income, then moves the quantity. The receiver's
   * row is created if it has none.
   */
  function Transfer(ledger: Ledger, from: Name, to: Name, quantity: Asset, memo: string, today: TimeType): (r: Step)
    ensures r.outcome.Abort? ==> r.after == ledger
  {
    var code := quantity.sym.code;
    if from == to then Step(Abort("cannot transfer to self"), ledger)
    else if code !in ledger.stats then Step(Abort("unable to find key"), ledger)
    else if quantity.amount <= 0 then Step(Abort("must transfer positive quantity"), ledger)
    else if quantity.sym != ledger.stats[code].supply.sym then Step(Abort("symbol precision mismatch"), ledger)
    else if |memo| > MAX_MEMO_SIZE then Step(Abort("memo has more than 256 bytes"), ledger)
    else
      var settled := UbiClaim(ledger, from, quantity.sym, today, false);
      if settled.outcome.Abort? then Step(settled.outcome, ledger)
      else
        var debited := SubBalance(settled.after, from, quantity);
        if debited.outcome.Abort? then Step(debited.outcome, ledger)
        else Step(Ok, AddBalance(debited.after, to, quantity))
  }

  /**
   * `issue`: raises the supply and credits the issuer, then, for another receiver, the
   * inline transfer from the issuer runs in the same transaction.
   */
  function Issue(ledger: Ledger, to: Name, quantity: Asset, memo: string, today: TimeType): (r: Step)
    ensures r.outcome.Abort? ==> r.after == ledger
  {
    var code := quantity.sym.code;
    if |memo| > MAX_MEMO_SIZE then Step(Abort("memo has more than 256 bytes"), ledger)
    else if code !in ledger.stats then Step(Abort("token with symbol does not exist, create token before issue"), ledger)
    else
      var st := ledger.stats[code];
      if quantity.amount <= 0 then Step(Abort("must issue positive quantity"), ledger)
      else if quantity.sym != st.supply.sym then Step(Abort("symbol precision mismatch"), ledger)
      else if quantity.amount > st.maxSupply.amount - st.supply.amount then Step(Abort("quantity exceeds available supply"), ledger)
      else
        var credited := AddBalance(Raised(ledger, quantity), st.issuer, quantity);
        if to != st.issuer then Rollback(ledger, Transfer(credited, st.issuer, to, quantity, memo, today))
        else Step(Ok, credited)
  }

  /** The stats row with `quantity` added to the supply. */
  function Raised(ledger: Ledger, quantity: Asset): Ledger
    requires quantity.sym.code in ledger.stats
  {
    var st := ledger.stats[quantity.sym.code];
    ledger.(stats := ledger.stats[quantity.sym.code := st.(supply := Asset(st.supply.amount + quantity.amount, st.supply.sym))])
  }

  /** The stats row with `quantity` taken out of the supply and added to the burned total. */
  function Retired(ledger: Ledger, quantity: Asset): Ledger
    requires quantity.sym.code in ledger.stats
  {
    var st := ledger.stats[quantity.sym.code];
    ledger.(stats := ledger.stats[quantity.sym.code := st.(
      supply := Asset(st.supply.amount - quantity.amount, st.supply.sym),
      burned := Asset(st.burned.amount + quantity.amount, st.burned.sym))])
  }

  /** `retire`: takes the quantity out of the supply and the issuer's balance, into the burned total. */
  function Retire(ledger: Ledger, quantity: Asset, memo: string): (r: Step)
    ensures r.outcome.Abort? ==> r.after == ledger
  {
    var code := quantity.sym.code;
    if |memo| > MAX_MEMO_SIZE then Step(Abort("memo has more than 256 bytes"), ledger)
    else if code !in ledger.stats then Step(Abort("token with symbol does not exist"), ledger)
    else if quantity.amount <= 0 then Step(Abort("must retire positive quantity"), ledger)
    else if quantity.sym != ledger.stats[code].supply.sym then Step(Abort("symbol precision mismatch"), ledger)
    else Rollback(ledger, SubBalance(Retired(ledger, quantity), ledger.stats[code].issuer, quantity))
  }

  /** `burn`: takes the quantity out of the supply and the owner's balance, into the burned total. */
  function Burn(ledger: Ledger, owner: Name, quantity: Asset): (r: Step)
    ensures r.outcome.Abort? ==> r.after == ledger
  {
    var code := quantity.sym.code;
    if code !in ledger.stats then Step(Abort("token with symbol does not exist"), ledger)
    else if quantity.amount <= 0 then Step(Abort("must retire positive quantity"), ledger)
    else if quantity.sym != ledger.stats[code].supply.sym then Step(Abort("symbol precision mismatch"), ledger)
    else Rollback(ledger, SubBalance(Retired(ledger, quantity), owner, quantity))
  }

  /** `open`: creates an empty row for the owner if it has none, then settles pending income. */
  function Open(ledger: Ledger, owner: Name, sym: Symbol, today: TimeType): (r: Step)
    ensures r.outcome.Abort? ==> r.after == ledger
    ensures r.outcome.Ok? <==> sym.code in ledger.stats && ledger.stats[sym.code].supply.sym == sym
    ensures r.outcome.Ok? ==> sym.code in RowsOf(r.after.accounts, owner)
    ensures (sym.code in RowsOf(ledger.accounts, owner) && RowsOf(ledger.accounts, owner)[sym.code].lastClaimDay >= today)
              ==> r.after == ledger
  {
    if sym.code !in ledger.stats then Step(Abort("symbol does not exist"), ledger)
    else if ledger.stats[sym.code].supply.sym != sym then Step(Abort("symbol precision mismatch"), ledger)
    else
      var rows := RowsOf(ledger.accounts, owner);
      var withRow := if sym.code in rows then ledger
        else ledger.(accounts := ledger.accounts[owner := rows[sym.code := Account(Asset(0, sym), 0)]]);
      UbiClaim(withRow, owner, sym, today, false)
  }

  /** `claim`: opens (and so settles) the owner's row of the contract's own coin. */
  function ClaimIncome(ledger: Ledger, owner: Name, today: TimeType): (r: Step)
    ensures r.outcome.Abort? ==> r.after == ledger
    ensures r.outcome.Ok? <==> COIN_CODE in ledger.stats && ledger.stats[COIN_CODE].supply.sym == COIN_SYMBOL
    ensures r.outcome.Ok? ==> COIN_CODE in RowsOf(r.after.accounts, owner)
    ensures (COIN_CODE in RowsOf(ledger.accounts, owner) && RowsOf(ledger.accounts, owner)[COIN_CODE].lastClaimDay >= today)
              ==> r.after == ledger
  {
    Open(ledger, owner, COIN_SYMBOL, today)
  }

  /** `claimfor`: the same on the owner's behalf; the other account only pays for storage. */
  function ClaimFor(ledger: Ledger, owner: Name, ramPayer: Name, today: TimeType): (r: Step)
    ensures r.outcome.Abort? ==> r.after == ledger
    ensures r.outcome.Ok? <==> COIN_CODE in ledger.stats && ledger.stats[COIN_CODE].supply.sym == COIN_SYMBOL
    ensures r.outcome.Ok? ==> COIN_CODE in RowsOf(r.after.accounts, owner)
    ensures (COIN_CODE in RowsOf(ledger.accounts, owner) && RowsOf(ledger.accounts, owner)[COIN_CODE].lastClaimDay >= today)
              ==> r.after == ledger
  {
    Open(ledger, owner, COIN_SYMBOL, today)
  }

  /** The messages with which `close` refuses. */
  const NO_ROW_TO_CLOSE: string := "Balance row already deleted or never existed. Action won't have any effect."
  const CLOSE_NONZERO_BALANCE: string := "Cannot close because the balance is not zero."
  const CLOSE_CLAIMED_TODAY: string := "Cannot close() yet: income was already claimed for today."
  const CLOSE_IN_REWARD_PERIOD: string := "Cannot close() yet: must wait for the end of the reward period."

  /**
   * `close`: erases an empty row once today's income, if it was ever claimed, has not been
   * claimed yet, and only after the reward period.
   */
  function Close(ledger: Ledger, owner: Name, sym: Symbol, today: TimeType): (r: Step)
    ensures r.outcome.Abort? ==> r.after == ledger
  {
    var rows := RowsOf(ledger.accounts, owner);
    if sym.code !in rows then Step(Abort(NO_ROW_TO_CLOSE), ledger)
    else if rows[sym.code].balance.amount != 0 then Step(Abort(CLOSE_NONZERO_BALANCE), ledger)
    else if rows[sym.code].lastClaimDay != 0 && rows[sym.code].lastClaimDay >= today then
      Step(Abort(CLOSE_CLAIMED_TODAY), ledger)
    else if today <= LAST_SIGNUP_REWARD_DAY then Step(Abort(CLOSE_IN_REWARD_PERIOD), ledger)
    else Step(Ok, ledger.(accounts := ledger.accounts[owner := rows - {sym.code}]))
  }

  /** `setshare`: edits the owner's share table; a total above 100% aborts. */
  function SetShare(ledger: Ledger, owner: Name, to: Name, percent: Percent): (r: Step)
    ensures r.outcome.Abort? ==> r.after == ledger
  {
    if percent > 100 then Step(Abort("invalid percent value"), ledger)
    else if owner == to then Step(Abort("cannot setshare to self"), ledger)
    else
      var table := SetEntry(SharesOf(ledger, owner), to, percent);
      if PercentSum(table) > 100 then Step(Abort("share total would exceed 100%"), ledger)
      else Step(Ok, ledger.(shares := ledger.shares[owner := table]))
  }

  /** `resetshare`: empties the owner's share table. */
  function ResetShare(ledger: Ledger, owner: Name): (r: Step)
    ensures r.outcome.Ok? && SharesOf(r.after, owner) == []
    ensures r.after.stats == ledger.stats && r.after.accounts == ledger.accounts
    ensures forall o :: o != owner ==> SharesOf(r.after, o) == SharesOf(ledger, o)
  {
    if owner in ledger.shares then Step(Ok, ledger.(shares := ledger.shares[owner := []])) else Step(Ok, ledger)
  }

  /** `get_supply`: the current supply of a token. */
  function GetSupply(ledger: Ledger, code: SymCode): (r: Result<Asset>)
    ensures r.Found? <==> code in ledger.stats
    ensures r.Found? ==> r.value == ledger.stats[code].supply
  {
    if code in ledger.stats then Found(ledger.stats[code].supply) else Missing("unable to find key")
  }

  /** `get_balance`: an owner's balance of a token. */
  function GetBalance(ledger: Ledger, owner: Name, code: SymCode): (r: Result<Asset>)
    ensures r.Found? <==> code in RowsOf(ledger.accounts, owner)
    ensures r.Found? ==> r.value.amount == BalanceOf(ledger.accounts, owner, code)
  {
    var rows := RowsOf(ledger.accounts, owner);
    if code in rows then Found(rows[code].balance) else Missing("unable to find key")
  }
}
