/**
 * What every action keeps true of the tables: each token's supply is the sum of its
 * balances and within its maximum, balance rows belong to created tokens and are not
 * negative, and share tables are ordered, add up to at most 100% and never name their owner.
 */
module Invariants {
  import opened Types
  import opened Shares
  import opened Claim
  import opened Tables
  import opened Actions

  /** Each stats row is keyed by its own code; its supply lies within zero and the maximum; nothing negative was burned. */
  predicate StatsOk(ledger: Ledger)
  {
    forall c :: c in ledger.stats ==>
      ledger.stats[c].supply.sym.code == c
      && 0 <= ledger.stats[c].supply.amount <= ledger.stats[c].maxSupply.amount
      && 0 <= ledger.stats[c].burned.amount
  }

  /** Each balance row is of a created token, holds that token's symbol, and is not negative. */
  predicate RowsOk(ledger: Ledger)
  {
    forall o, c :: o in ledger.accounts && c in ledger.accounts[o] ==>
      c in ledger.stats
      && ledger.accounts[o][c].balance.sym == ledger.stats[c].supply.sym
      && ledger.accounts[o][c].balance.amount >= 0
  }

  /** Every coin of the supply is held by some owner, and every held coin is part of the supply. */
  ghost predicate Backed(ledger: Ledger)
  {
    forall c :: c in ledger.stats ==> ledger.stats[c].supply.amount == TotalHeld(ledger, c)
  }

  /** Each share table is in key order, adds up to at most 100%, and does not share with its owner. */
  predicate SharesOk(ledger: Ledger)
  {
    forall o :: o in ledger.shares ==>
      Ascending(ledger.shares[o]) && PercentSum(ledger.shares[o]) <= 100 && o !in AsMap(ledger.shares[o])
  }

  ghost predicate Inv(ledger: Ledger)
  {
    StatsOk(ledger) && RowsOk(ledger) && Backed(ledger) && SharesOk(ledger)
  }

  /** No owner holds more of a token than its supply. */
  lemma BalanceWithinSupply(ledger: Ledger, owner: Name, code: SymCode)
    requires Inv(ledger) && code in ledger.stats
    ensures 0 <= BalanceOf(ledger.accounts, owner, code) <= ledger.stats[code].supply.amount
  {
    var h := Holdings(ledger.accounts, code);
    if owner in h {
      EntryWithinTotal(h, owner);
    } else {
      TotalNonNegative(h);
    }
  }

  /** `add_balance` of a non-negative value of a created token keeps the rows well formed. */
  lemma RowsOkAddBalance(ledger: Ledger, owner: Name, value: Asset)
    requires RowsOk(ledger) && value.sym.code in ledger.stats
    requires value.sym == ledger.stats[value.sym.code].supply.sym && value.amount >= 0
    ensures RowsOk(AddBalance(ledger, owner, value))
  {
  }

  /** A `sub_balance` that succeeds keeps the rows well formed. */
  lemma RowsOkSubBalance(ledger: Ledger, owner: Name, value: Asset)
    requires RowsOk(ledger) && SubBalance(ledger, owner, value).outcome.Ok?
    ensures RowsOk(SubBalance(ledger, owner, value).after)
  {
  }

  /** Non-negative credits of a created token keep the rows well formed. */
  lemma {:induction false} RowsOkCreditAll(ledger: Ledger, credits: seq<Credit>, sym: Symbol)
    requires RowsOk(ledger) && sym.code in ledger.stats && sym == ledger.stats[sym.code].supply.sym
    requires forall i :: 0 <= i < |credits| ==> credits[i].amount >= 0
    ensures RowsOk(CreditAll(ledger, credits, sym))
    decreases credits
  {
    if credits != [] {
      RowsOkAddBalance(ledger, credits[0].to, Asset(credits[0].amount, sym));
      RowsOkCreditAll(AddBalance(ledger, credits[0].to, Asset(credits[0].amount, sym)), credits[1..], sym);
    }
  }

  /** Changing stats rows without dropping a token or changing its symbol keeps the rows well formed. */
  lemma RowsOkRestat(ledger: Ledger, stats: map<SymCode, CurrencyStats>)
    requires RowsOk(ledger)
    requires forall c :: c in ledger.stats ==> c in stats && stats[c].supply.sym == ledger.stats[c].supply.sym
    ensures RowsOk(ledger.(stats := stats))
  {
  }

  /** Booking a claim moves a last claim day, which is not a balance. */
  lemma ClaimedHeld(ledger: Ledger, from: Name, sym: Symbol, amount: int, newLastClaimDay: TimeType, code: SymCode)
    requires sym.code in ledger.stats && sym.code in RowsOf(ledger.accounts, from)
    ensures TotalHeld(Claimed(ledger, from, sym, amount, newLastClaimDay), code) == TotalHeld(ledger, code)
  {
    var rows := RowsOf(ledger.accounts, from);
    HoldingsKeepBalance(ledger.accounts, from, rows[sym.code := rows[sym.code].(lastClaimDay := newLastClaimDay)], code);
  }

  /** A paid claim keeps every token backed: the new coins are exactly the ones credited. */
  lemma PayClaimBacked(ledger: Ledger, from: Name, sym: Symbol, amount: int, newLastClaimDay: TimeType)
    requires Backed(ledger) && sym.code in ledger.stats && sym.code in RowsOf(ledger.accounts, from)
    requires amount > 0
    ensures Backed(PayClaim(ledger, from, sym, amount, newLastClaimDay))
  {
    var claimed := Claimed(ledger, from, sym, amount, newLastClaimDay);
    var credits := Payout(amount, SharesOf(ledger, from), from);
    var after := PayClaim(ledger, from, sym, amount, newLastClaimDay);
    PayoutConserves(amount, SharesOf(ledger, from), from);
    forall c | c in after.stats
      ensures after.stats[c].supply.amount == TotalHeld(after, c)
    {
      ClaimedHeld(ledger, from, sym, amount, newLastClaimDay, c);
      CreditAllTotal(claimed, credits, sym, c);
    }
  }

  /** A claim within the maximum supply keeps the stats rows well formed. */
  lemma ClaimedStats(ledger: Ledger, from: Name, sym: Symbol, amount: int, newLastClaimDay: TimeType)
    requires StatsOk(ledger) && sym.code in ledger.stats && sym.code in RowsOf(ledger.accounts, from)
    requires 0 < amount <= ledger.stats[sym.code].maxSupply.amount - ledger.stats[sym.code].supply.amount
    ensures StatsOk(Claimed(ledger, from, sym, amount, newLastClaimDay))
  {
  }

  /** Booking a claim keeps the rows well formed. */
  lemma ClaimedRows(ledger: Ledger, from: Name, sym: Symbol, amount: int, newLastClaimDay: TimeType)
    requires RowsOk(ledger) && sym.code in ledger.stats && sym.code in RowsOf(ledger.accounts, from)
    ensures RowsOk(Claimed(ledger, from, sym, amount, newLastClaimDay))
  {
  }

  /** A paid claim keeps the invariant. */
  lemma PayClaimPreserves(ledger: Ledger, from: Name, sym: Symbol, amount: int, newLastClaimDay: TimeType)
    requires Inv(ledger) && sym.code in ledger.stats && ledger.stats[sym.code].supply.sym == sym
    requires sym.code in RowsOf(ledger.accounts, from)
    requires 0 < amount <= ledger.stats[sym.code].maxSupply.amount - ledger.stats[sym.code].supply.amount
    ensures Inv(PayClaim(ledger, from, sym, amount, newLastClaimDay))
  {
    var claimed := Claimed(ledger, from, sym, amount, newLastClaimDay);
    ClaimedStats(ledger, from, sym, amount, newLastClaimDay);
    ClaimedRows(ledger, from, sym, amount, newLastClaimDay);
    PayoutConserves(amount, SharesOf(ledger, from), from);
    RowsOkCreditAll(claimed, Payout(amount, SharesOf(ledger, from), from), sym);
    PayClaimBacked(ledger, from, sym, amount, newLastClaimDay);
  }

  /** `try_ubi_claim` keeps the invariant. */
  lemma UbiClaimPreserves(ledger: Ledger, from: Name, sym: Symbol, today: TimeType, fail: bool)
    requires Inv(ledger) && sym.code in ledger.stats && ledger.stats[sym.code].supply.sym == sym
    ensures Inv(UbiClaim(ledger, from, sym, today, fail).after)
  {
    if sym.code in RowsOf(ledger.accounts, from) {
      var plan := PlanFor(ledger, from, sym, today);
      if plan.Pay? {
        PayClaimPreserves(ledger, from, sym, plan.amount, plan.newLastClaimDay);
      }
    }
  }

  /** A token that no row holds is held by nobody. */
  lemma UnheldToken(ledger: Ledger, code: SymCode)
    requires RowsOk(ledger) && code !in ledger.stats
    ensures TotalHeld(ledger, code) == 0
  {
    assert Holdings(ledger.accounts, code) == map[];
  }

  /**
   * What `get_supply` reports is the sum of the token's balances, within zero and the
   * maximum supply; a token it cannot find is held by nobody.
   */
  lemma SupplyIsHeld(ledger: Ledger, code: SymCode)
    requires Inv(ledger)
    ensures var r := GetSupply(ledger, code);
            (r.Found? ==> r.value.sym.code == code && r.value.amount == TotalHeld(ledger, code)
                          && 0 <= r.value.amount <= ledger.stats[code].maxSupply.amount)
            && (r.Missing? ==> TotalHeld(ledger, code) == 0)
  {
    if code !in ledger.stats {
      UnheldToken(ledger, code);
    }
  }

  /** `create` keeps the invariant: a new token has no balances and a zero supply. */
  lemma CreatePreserves(ledger: Ledger, issuer: Name, maximumSupply: Asset)
    requires Inv(ledger)
    ensures Inv(Create(ledger, issuer, maximumSupply).after)
  {
    var r := Create(ledger, issuer, maximumSupply);
    if r.outcome.Ok? {
      var code := maximumSupply.sym.code;
      var after := r.after;
      assert after.accounts == ledger.accounts && after.shares == ledger.shares;
      assert after.stats == ledger.stats[code := CurrencyStats(Asset(0, maximumSupply.sym), maximumSupply, issuer, Asset(0, maximumSupply.sym), 0)];
      UnheldToken(ledger, code);
      forall c | c in after.stats
        ensures after.stats[c].supply.amount == TotalHeld(after, c)
      {
        assert TotalHeld(after, c) == TotalHeld(ledger, c);
      }
      RowsOkRestat(ledger, after.stats);
      assert StatsOk(after);
    }
  }

  /** `transfer` keeps the invariant: what leaves the sender reaches the receiver. */
  lemma TransferPreserves(ledger: Ledger, from: Name, to: Name, quantity: Asset, memo: string, today: TimeType)
    requires Inv(ledger)
    ensures Inv(Transfer(ledger, from, to, quantity, memo, today).after)
  {
    var r := Transfer(ledger, from, to, quantity, memo, today);
    if r.outcome.Ok? {
      UbiClaimPreserves(ledger, from, quantity.sym, today, false);
      var settled := UbiClaim(ledger, from, quantity.sym, today, false).after;
      var debited := SubBalance(settled, from, quantity);
      RowsOkSubBalance(settled, from, quantity);
      RowsOkAddBalance(debited.after, to, quantity);
      assert r.after == AddBalance(debited.after, to, quantity);
      forall c | c in r.after.stats
        ensures r.after.stats[c].supply.amount == TotalHeld(r.after, c)
      {
        SubBalanceTotal(settled, from, quantity, c);
        AddBalanceTotal(debited.after, to, quantity, c);
      }
    }
  }

  /** The issued coins credited to the issuer keep every token backed. */
  lemma RaisedBacked(ledger: Ledger, quantity: Asset, issuer: Name)
    requires Backed(ledger) && quantity.sym.code in ledger.stats
    ensures Backed(AddBalance(Raised(ledger, quantity), issuer, quantity))
  {
    var raised := Raised(ledger, quantity);
    var credited := AddBalance(raised, issuer, quantity);
    forall c | c in credited.stats
      ensures credited.stats[c].supply.amount == TotalHeld(credited, c)
    {
      AddBalanceTotal(raised, issuer, quantity, c);
    }
  }

  /** Issuing within the maximum supply keeps the stats rows well formed. */
  lemma RaisedStats(ledger: Ledger, quantity: Asset)
    requires StatsOk(ledger) && quantity.sym.code in ledger.stats
    requires 0 < quantity.amount <= ledger.stats[quantity.sym.code].maxSupply.amount - ledger.stats[quantity.sym.code].supply.amount
    ensures StatsOk(Raised(ledger, quantity))
  {
  }

  /** The issued coins credited to the issuer keep the invariant. */
  lemma RaisedPreserves(ledger: Ledger, quantity: Asset)
    requires Inv(ledger) && quantity.sym.code in ledger.stats
    requires quantity.sym == ledger.stats[quantity.sym.code].supply.sym
    requires 0 < quantity.amount <= ledger.stats[quantity.sym.code].maxSupply.amount - ledger.stats[quantity.sym.code].supply.amount
    ensures Inv(AddBalance(Raised(ledger, quantity), ledger.stats[quantity.sym.code].issuer, quantity))
  {
    var issuer := ledger.stats[quantity.sym.code].issuer;
    var raised := Raised(ledger, quantity);
    RaisedStats(ledger, quantity);
    RowsOkRestat(ledger, raised.stats);
    RowsOkAddBalance(raised, issuer, quantity);
    RaisedBacked(ledger, quantity, issuer);
  }

  /** `issue` keeps the invariant: the new coins go to the issuer, then the transfer keeps it. */
  lemma IssuePreserves(ledger: Ledger, to: Name, quantity: Asset, memo: string, today: TimeType)
    requires Inv(ledger)
    ensures Inv(Issue(ledger, to, quantity, memo, today).after)
  {
    if Issue(ledger, to, quantity, memo, today).outcome.Ok? {
      var st := ledger.stats[quantity.sym.code];
      RaisedPreserves(ledger, quantity);
      if to != st.issuer {
        TransferPreserves(AddBalance(Raised(ledger, quantity), st.issuer, quantity), st.issuer, to, quantity, memo, today);
      }
    }
  }

  /** Taking a quantity out of the supply and out of one balance keeps every token backed. */
  lemma RetiredBacked(ledger: Ledger, owner: Name, quantity: Asset)
    requires Backed(ledger) && quantity.sym.code in ledger.stats
    requires SubBalance(Retired(ledger, quantity), owner, quantity).outcome.Ok?
    ensures Backed(SubBalance(Retired(ledger, quantity), owner, quantity).after)
  {
    var retired := Retired(ledger, quantity);
    var after := SubBalance(retired, owner, quantity).after;
    forall c | c in after.stats
      ensures after.stats[c].supply.amount == TotalHeld(after, c)
    {
      SubBalanceTotal(retired, owner, quantity, c);
    }
  }

  /** A backed supply whose balances are not negative is not negative. */
  lemma SupplyNotNegative(ledger: Ledger, code: SymCode)
    requires RowsOk(ledger) && Backed(ledger) && code in ledger.stats
    ensures ledger.stats[code].supply.amount >= 0
  {
    TotalNonNegative(Holdings(ledger.accounts, code));
  }

  /** Taking a positive quantity out of the supply and out of one balance keeps the invariant. */
  lemma RetiredPreserves(ledger: Ledger, owner: Name, quantity: Asset)
    requires Inv(ledger) && quantity.sym.code in ledger.stats
    requires quantity.sym == ledger.stats[quantity.sym.code].supply.sym && quantity.amount > 0
    requires SubBalance(Retired(ledger, quantity), owner, quantity).outcome.Ok?
    ensures Inv(SubBalance(Retired(ledger, quantity), owner, quantity).after)
  {
    var retired := Retired(ledger, quantity);
    var after := SubBalance(retired, owner, quantity).after;
    RowsOkRestat(ledger, retired.stats);
    RowsOkSubBalance(retired, owner, quantity);
    RetiredBacked(ledger, owner, quantity);
    SupplyNotNegative(after, quantity.sym.code);
  }

  /** `retire` keeps the invariant. */
  lemma RetirePreserves(ledger: Ledger, quantity: Asset, memo: string)
    requires Inv(ledger)
    ensures Inv(Retire(ledger, quantity, memo).after)
  {
    if Retire(ledger, quantity, memo).outcome.Ok? {
      RetiredPreserves(ledger, ledger.stats[quantity.sym.code].issuer, quantity);
    }
  }

  /** `burn` keeps the invariant. */
  lemma BurnPreserves(ledger: Ledger, owner: Name, quantity: Asset)
    requires Inv(ledger)
    ensures Inv(Burn(ledger, owner, quantity).after)
  {
    if Burn(ledger, owner, quantity).outcome.Ok? {
      RetiredPreserves(ledger, owner, quantity);
    }
  }

  /** `open` keeps the invariant: a new row holds nothing. */
  lemma OpenPreserves(ledger: Ledger, owner: Name, sym: Symbol, today: TimeType)
    requires Inv(ledger)
    ensures Inv(Open(ledger, owner, sym, today).after)
  {
    if sym.code in ledger.stats && ledger.stats[sym.code].supply.sym == sym {
      var rows := RowsOf(ledger.accounts, owner);
      var withRow := if sym.code in rows then ledger
        else ledger.(accounts := ledger.accounts[owner := rows[sym.code := Account(Asset(0, sym), 0)]]);
      if sym.code !in rows {
        assert withRow == AddBalance(ledger, owner, Asset(0, sym));
        RowsOkAddBalance(ledger, owner, Asset(0, sym));
        forall c | c in withRow.stats
          ensures withRow.stats[c].supply.amount == TotalHeld(withRow, c)
        {
          AddBalanceTotal(ledger, owner, Asset(0, sym), c);
        }
      }
      UbiClaimPreserves(withRow, owner, sym, today, false);
    }
  }

  /** Erasing a row that holds nothing keeps every token backed. */
  lemma EraseEmptyRowBacked(ledger: Ledger, owner: Name, code: SymCode)
    requires Backed(ledger) && code in RowsOf(ledger.accounts, owner)
    requires RowsOf(ledger.accounts, owner)[code].balance.amount == 0
    ensures Backed(ledger.(accounts := ledger.accounts[owner := RowsOf(ledger.accounts, owner) - {code}]))
  {
    var rows := RowsOf(ledger.accounts, owner);
    var after := ledger.(accounts := ledger.accounts[owner := rows - {code}]);
    forall c | c in after.stats
      ensures after.stats[c].supply.amount == TotalHeld(after, c)
    {
      if c == code {
        HoldingsSetRows(ledger.accounts, owner, rows - {code}, c);
        TotalRemove(Holdings(ledger.accounts, c), owner);
      } else {
        HoldingsKeepBalance(ledger.accounts, owner, rows - {code}, c);
      }
    }
  }

  /** Erasing a row keeps the rows well formed. */
  lemma EraseRowRows(ledger: Ledger, owner: Name, code: SymCode)
    requires RowsOk(ledger)
    ensures RowsOk(ledger.(accounts := ledger.accounts[owner := RowsOf(ledger.accounts, owner) - {code}]))
  {
  }

  /** `close` keeps the invariant: only an empty row is erased. */
  lemma ClosePreserves(ledger: Ledger, owner: Name, sym: Symbol, today: TimeType)
    requires Inv(ledger)
    ensures Inv(Close(ledger, owner, sym, today).after)
  {
    if Close(ledger, owner, sym, today).outcome.Ok? {
      EraseEmptyRowBacked(ledger, owner, sym.code);
      EraseRowRows(ledger, owner, sym.code);
    }
  }

  /** `setshare` keeps the invariant: the edited table stays ordered and never names its owner. */
  lemma SetSharePreserves(ledger: Ledger, owner: Name, to: Name, percent: Percent)
    requires Inv(ledger)
    ensures Inv(SetShare(ledger, owner, to, percent).after)
  {
    var r := SetShare(ledger, owner, to, percent);
    if r.outcome.Ok? {
      var table := SharesOf(ledger, owner);
      SetEntryAscending(table, to, percent);
      SetEntryMap(table, to, percent);
    }
  }

  /** `resetshare` keeps the invariant. */
  lemma ResetSharePreserves(ledger: Ledger, owner: Name)
    requires Inv(ledger)
    ensures Inv(ResetShare(ledger, owner).after)
  {
    assert PercentSum([]) == 0;
  }
}
