/**
 * The contract as an object whose actions update its tables in place, row by row, in the
 * order the actions do. Each action is proved to leave the tables as its function in
 * `Actions` says, and to keep the invariant of `Invariants`. An action that fails a check
 * after it has changed rows restores the tables it started from, as the aborted transaction
 * would.
 */
module Contract {
  import opened Types
  import opened Shares
  import opened Claim
  import opened Tables
  import Actions
  import Invariants

  class Token {
    var stats: map<SymCode, CurrencyStats>
    var accounts: map<Name, map<SymCode, Account>>
    var shares: map<Name, seq<Share>>

    /** The tables as one value. */
    function Books(): Ledger
      reads this
    {
      Ledger(stats, accounts, shares)
    }

    ghost predicate Valid()
      reads this
    {
      Invariants.Inv(Books())
    }

    /** A contract with no token, no balance row and no share table. */
    constructor ()
      ensures Books() == Ledger(map[], map[], map[])
      ensures Valid()
    {
      stats := map[];
      accounts := map[];
      shares := map[];
    }

    /** The transaction's rollback: puts back the tables an action started from. */
    method Restore(books: Ledger)
      modifies this
      ensures Books() == books
    {
      stats := books.stats;
      accounts := books.accounts;
      shares := books.shares;
    }

    /** `add_balance`. */
    method AddBalance(owner: Name, value: Asset)
      modifies this
      ensures Books() == Tables.AddBalance(old(Books()), owner, value)
    {
      var rows := RowsOf(accounts, owner);
      var code := value.sym.code;
      if code !in rows {
        accounts := accounts[owner := rows[code := Account(value, 0)]];
      } else {
        var row := rows[code];
        accounts := accounts[owner := rows[code := row.(balance := Asset(row.balance.amount + value.amount, row.balance.sym))]];
      }
    }

    /** `sub_balance`. */
    method SubBalance(owner: Name, value: Asset) returns (outcome: Outcome)
      modifies this
      ensures Step(outcome, Books()) == Tables.SubBalance(old(Books()), owner, value)
    {
      var rows := RowsOf(accounts, owner);
      var code := value.sym.code;
      if code !in rows {
        return Abort("no balance object found");
      }
      var row := rows[code];
      if row.balance.amount < value.amount {
        return Abort("overdrawn balance");
      }
      accounts := accounts[owner := rows[code := row.(balance := Asset(row.balance.amount - value.amount, row.balance.sym))]];
      return Ok;
    }

    /**
     * The share loop of `try_ubi_claim`: walks the claimer's share table in key order,
     * crediting each beneficiary, and credits what is left to the claimer.
     */
    method PayShares(from: Name, sym: Symbol, total: int)
      modifies this
      ensures Books() == CreditAll(old(Books()), Payout(total, SharesOf(old(Books()), from), from), sym)
    {
      var rest := SharesOf(Books(), from);
      ghost var target := CreditAll(Books(), Payout(total, rest, from), sym);
      var available := total;
      var pcsum := 0;
      while rest != []
        invariant CreditAll(Books(), Split(total, available, pcsum, rest, from), sym) == target
      {
        var share := rest[0];
        SplitFirst(total, available, pcsum, rest, from);
        pcsum := pcsum + share.percent;
        var amount := if pcsum >= 100 then available else Portion(total, share);
        available := available - amount;
        ghost var next := if available <= 0 then [] else Split(total, available, pcsum, rest[1..], from);
        CreditAllCons(Books(), Credit(share.to, amount), next, sym);
        AddBalance(share.to, Asset(amount, sym));
        if available <= 0 {
          return;
        }
        rest := rest[1..];
      }
      CreditAllCons(Books(), Credit(from, available), [], sym);
      AddBalance(from, Asset(available, sym));
    }

    /** `try_ubi_claim`. */
    method TryUbiClaim(from: Name, sym: Symbol, today: TimeType, fail: bool) returns (outcome: Outcome)
      requires sym.code in stats
      modifies this
      ensures Step(outcome, Books()) == Actions.UbiClaim(old(Books()), from, sym, today, fail)
    {
      var rows := RowsOf(accounts, from);
      if sym.code !in rows {
        return Abort("no balance object found");
      }
      var plan := Actions.PlanFor(Books(), from, sym, today);
      if plan.NothingPending? {
        return if fail then Abort("no pending income to claim") else Ok;
      }
      if plan.NoCoins? {
        return if fail then Abort("no coins") else Ok;
      }
      PayClaim(from, sym, plan.amount, plan.newLastClaimDay);
      return Ok;
    }

    /** A paying claim: books it on the stats and the claimer's row, then pays it out. */
    method PayClaim(from: Name, sym: Symbol, amount: int, newLastClaimDay: TimeType)
      requires sym.code in stats && sym.code in RowsOf(accounts, from)
      modifies this
      ensures Books() == Actions.PayClaim(old(Books()), from, sym, amount, newLastClaimDay)
    {
      var st := stats[sym.code];
      var rows := RowsOf(accounts, from);
      stats := stats[sym.code := st.(supply := Asset(st.supply.amount + amount, st.supply.sym), claims := st.claims + 1)];
      accounts := accounts[from := rows[sym.code := rows[sym.code].(lastClaimDay := newLastClaimDay)]];
      PayShares(from, sym, amount);
    }

    /** `create`. */
    method Create(issuer: Name, maximumSupply: Asset) returns (outcome: Outcome)
      requires Valid()
      modifies this
      ensures Step(outcome, Books()) == Actions.Create(old(Books()), issuer, maximumSupply)
      ensures Valid()
    {
      Invariants.CreatePreserves(Books(), issuer, maximumSupply);
      var sym := maximumSupply.sym;
      if maximumSupply.amount <= 0 {
        return Abort("max-supply must be positive");
      }
      if sym.precision != SYMBOL_PRECISION {
        return Abort("unsupported symbol precision");
      }
      if sym.code in stats {
        return Abort("token with symbol already exists");
      }
      stats := stats[sym.code := CurrencyStats(Asset(0, sym), maximumSupply, issuer, Asset(0, sym), 0)];
      return Ok;
    }

    /** `transfer`. */
    method Transfer(from: Name, to: Name, quantity: Asset, memo: string, today: TimeType) returns (outcome: Outcome)
      requires Valid()
      modifies this
      ensures Step(outcome, Books()) == Actions.Transfer(old(Books()), from, to, quantity, memo, today)
      ensures Valid()
    {
      Invariants.TransferPreserves(Books(), from, to, quantity, memo, today);
      outcome := MoveTokens(from, to, quantity, memo, today);
    }

    /** The steps of `transfer`: its checks, the sender's claim, then the move. */
    method MoveTokens(from: Name, to: Name, quantity: Asset, memo: string, today: TimeType) returns (outcome: Outcome)
      modifies this
      ensures Step(outcome, Books()) == Actions.Transfer(old(Books()), from, to, quantity, memo, today)
    {
      var before := Books();
      var code := quantity.sym.code;
      if from == to {
        return Abort("cannot transfer to self");
      }
      if code !in stats {
        return Abort("unable to find key");
      }
      if quantity.amount <= 0 {
        return Abort("must transfer positive quantity");
      }
      if quantity.sym != stats[code].supply.sym {
        return Abort("symbol precision mismatch");
      }
      if |memo| > Actions.MAX_MEMO_SIZE {
        return Abort("memo has more than 256 bytes");
      }
      outcome := TryUbiClaim(from, quantity.sym, today, false);
      if outcome.Abort? {
        return;
      }
      outcome := SubBalance(from, quantity);
      if outcome.Abort? {
        Restore(before);
        return;
      }
      AddBalance(to, quantity);
    }

    /** `issue`; the transfer it sends to another receiver runs in the same transaction. */
    method Issue(to: Name, quantity: Asset, memo: string, today: TimeType) returns (outcome: Outcome)
      requires Valid()
      modifies this
      ensures Step(outcome, Books()) == Actions.Issue(old(Books()), to, quantity, memo, today)
      ensures Valid()
    {
      Invariants.IssuePreserves(Books(), to, quantity, memo, today);
      var code := quantity.sym.code;
      if |memo| > Actions.MAX_MEMO_SIZE {
        return Abort("memo has more than 256 bytes");
      }
      if code !in stats {
        return Abort("token with symbol does not exist, create token before issue");
      }
      var st := stats[code];
      if quantity.amount <= 0 {
        return Abort("must issue positive quantity");
      }
      if quantity.sym != st.supply.sym {
        return Abort("symbol precision mismatch");
      }
      if quantity.amount > st.maxSupply.amount - st.supply.amount {
        return Abort("quantity exceeds available supply");
      }
      outcome := IssueChecked(to, quantity, memo, today);
    }

    /** The issued quantity is added to the supply and to the issuer's balance. */
    method CreditIssuer(quantity: Asset)
      requires quantity.sym.code in stats
      modifies this
      ensures Books() == Tables.AddBalance(Actions.Raised(old(Books()), quantity), old(stats[quantity.sym.code].issuer), quantity)
    {
      var st := stats[quantity.sym.code];
      stats := stats[quantity.sym.code := st.(supply := Asset(st.supply.amount + quantity.amount, st.supply.sym))];
      AddBalance(st.issuer, quantity);
    }

    /** `issue` once its checks have passed. */
    method IssueChecked(to: Name, quantity: Asset, memo: string, today: TimeType) returns (outcome: Outcome)
      requires quantity.sym.code in stats
      modifies this
      ensures var issuer := old(stats[quantity.sym.code].issuer);
              var credited := Tables.AddBalance(Actions.Raised(old(Books()), quantity), issuer, quantity);
              Step(outcome, Books())
                == if to != issuer then Actions.Rollback(old(Books()), Actions.Transfer(credited, issuer, to, quantity, memo, today))
                   else Step(Ok, credited)
    {
      var before := Books();
      var st := stats[quantity.sym.code];
      CreditIssuer(quantity);
      if to != st.issuer {
        outcome := MoveTokens(st.issuer, to, quantity, memo, today);
        if outcome.Abort? {
          Restore(before);
        }
        return;
      }
      return Ok;
    }

    /** The supply and burned total of `retire` and `burn`. */
    method TakeOutOfSupply(quantity: Asset)
      requires quantity.sym.code in stats
      modifies this
      ensures Books() == Actions.Retired(old(Books()), quantity)
    {
      var st := stats[quantity.sym.code];
      stats := stats[quantity.sym.code := st.(
        supply := Asset(st.supply.amount - quantity.amount, st.supply.sym),
        burned := Asset(st.burned.amount + quantity.amount, st.burned.sym))];
    }

    /** `retire`. */
    method Retire(quantity: Asset, memo: string) returns (outcome: Outcome)
      requires Valid()
      modifies this
      ensures Step(outcome, Books()) == Actions.Retire(old(Books()), quantity, memo)
      ensures Valid()
    {
      var before := Books();
      Invariants.RetirePreserves(before, quantity, memo);
      var code := quantity.sym.code;
      if |memo| > Actions.MAX_MEMO_SIZE {
        return Abort("memo has more than 256 bytes");
      }
      if code !in stats {
        return Abort("token with symbol does not exist");
      }
      if quantity.amount <= 0 {
        return Abort("must retire positive quantity");
      }
      if quantity.sym != stats[code].supply.sym {
        return Abort("symbol precision mismatch");
      }
      var issuer := stats[code].issuer;
      TakeOutOfSupply(quantity);
      outcome := SubBalance(issuer, quantity);
      if outcome.Abort? {
        Restore(before);
      }
    }

    /** `burn`. */
    method Burn(owner: Name, quantity: Asset) returns (outcome: Outcome)
      requires Valid()
      modifies this
      ensures Step(outcome, Books()) == Actions.Burn(old(Books()), owner, quantity)
      ensures Valid()
    {
      var before := Books();
      Invariants.BurnPreserves(before, owner, quantity);
      var code := quantity.sym.code;
      if code !in stats {
        return Abort("token with symbol does not exist");
      }
      if quantity.amount <= 0 {
        return Abort("must retire positive quantity");
      }
      if quantity.sym != stats[code].supply.sym {
        return Abort("symbol precision mismatch");
      }
      TakeOutOfSupply(quantity);
      outcome := SubBalance(owner, quantity);
      if outcome.Abort? {
        Restore(before);
      }
    }

    /** `open`. */
    method Open(owner: Name, sym: Symbol, today: TimeType) returns (outcome: Outcome)
      requires Valid()
      modifies this
      ensures Step(outcome, Books()) == Actions.Open(old(Books()), owner, sym, today)
      ensures Valid()
    {
      Invariants.OpenPreserves(Books(), owner, sym, today);
      if sym.code !in stats {
        return Abort("symbol does not exist");
      }
      if stats[sym.code].supply.sym != sym {
        return Abort("symbol precision mismatch");
      }
      var rows := RowsOf(accounts, owner);
      if sym.code !in rows {
        accounts := accounts[owner := rows[sym.code := Account(Asset(0, sym), 0)]];
      }
      outcome := TryUbiClaim(owner, sym, today, false);
    }

    /** `claim`. */
    method ClaimIncome(owner: Name, today: TimeType) returns (outcome: Outcome)
      requires Valid()
      modifies this
      ensures Step(outcome, Books()) == Actions.ClaimIncome(old(Books()), owner, today)
      ensures Valid()
    {
      outcome := Open(owner, COIN_SYMBOL, today);
    }

    /** `claimfor`. */
    method ClaimFor(owner: Name, ramPayer: Name, today: TimeType) returns (outcome: Outcome)
      requires Valid()
      modifies this
      ensures Step(outcome, Books()) == Actions.ClaimFor(old(Books()), owner, ramPayer, today)
      ensures Valid()
    {
      outcome := Open(owner, COIN_SYMBOL, today);
    }

    /** `close`. */
    method Close(owner: Name, sym: Symbol, today: TimeType) returns (outcome: Outcome)
      requires Valid()
      modifies this
      ensures Step(outcome, Books()) == Actions.Close(old(Books()), owner, sym, today)
      ensures Valid()
    {
      Invariants.ClosePreserves(Books(), owner, sym, today);
      var rows := RowsOf(accounts, owner);
      if sym.code !in rows {
        return Abort(Actions.NO_ROW_TO_CLOSE);
      }
      if rows[sym.code].balance.amount != 0 {
        return Abort(Actions.CLOSE_NONZERO_BALANCE);
      }
      if rows[sym.code].lastClaimDay != 0 && rows[sym.code].lastClaimDay >= today {
        return Abort(Actions.CLOSE_CLAIMED_TODAY);
      }
      if today <= LAST_SIGNUP_REWARD_DAY {
        return Abort(Actions.CLOSE_IN_REWARD_PERIOD);
      }
      accounts := accounts[owner := rows - {sym.code}];
      return Ok;
    }

    /** `setshare`: edits the row, then sums the table row by row and refuses a total above 100%. */
    method SetShare(owner: Name, to: Name, percent: Percent) returns (outcome: Outcome)
      requires Valid()
      modifies this
      ensures Step(outcome, Books()) == Actions.SetShare(old(Books()), owner, to, percent)
      ensures Valid()
    {
      var before := Books();
      Invariants.SetSharePreserves(before, owner, to, percent);
      if percent > 100 {
        return Abort("invalid percent value");
      }
      if owner == to {
        return Abort("cannot setshare to self");
      }
      var table := SetEntry(SharesOf(Books(), owner), to, percent);
      shares := shares[owner := table];
      var pcsum := 0;
      var i := 0;
      while i < |table|
        invariant 0 <= i <= |table|
        invariant Books() == before.(shares := before.shares[owner := table])
        invariant pcsum == PercentBefore(table, i)
      {
        PercentBeforeNext(table, i);
        pcsum := pcsum + table[i].percent;
        i := i + 1;
      }
      if pcsum > 100 {
        Restore(before);
        return Abort("share total would exceed 100%");
      }
      return Ok;
    }

    /** `resetshare`: erases the owner's share rows one at a time, from the first. */
    method ResetShare(owner: Name) returns (outcome: Outcome)
      requires Valid()
      modifies this
      ensures Step(outcome, Books()) == Actions.ResetShare(old(Books()), owner)
      ensures Valid()
    {
      Invariants.ResetSharePreserves(Books(), owner);
      while owner in shares && shares[owner] != []
        invariant stats == old(stats) && accounts == old(accounts)
        invariant owner in shares <==> owner in old(shares)
        invariant owner in shares ==> shares == old(shares)[owner := shares[owner]]
        invariant owner !in shares ==> shares == old(shares)
        decreases |SharesOf(Books(), owner)|
      {
        shares := shares[owner := shares[owner][1..]];
      }
      return Ok;
    }
  }
}
