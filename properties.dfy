/**
 * What the actions promise one call at a time: when each succeeds, and what it changes.
 */
module Properties {
  import opened Types
  import opened Shares
  import opened Claim
  import opened Tables
  import opened Actions
  import opened Invariants

  /**
   * A claim with coins to pay succeeds: the supply rises by the amount, the claim count by
   * one, the claimant's last claim day becomes the plan's, and the holdings grow by the amount.
   */
  lemma UbiClaimPays(ledger: Ledger, from: Name, sym: Symbol, today: TimeType, fail: bool)
    requires sym.code in ledger.stats && sym.code in RowsOf(ledger.accounts, from)
    requires PlanFor(ledger, from, sym, today).Pay?
    ensures var plan := PlanFor(ledger, from, sym, today);
            var st := ledger.stats[sym.code];
            var r := UbiClaim(ledger, from, sym, today, fail);
            r.outcome == Ok
            && r.after.stats == ledger.stats[sym.code := st.(supply := Asset(st.supply.amount + plan.amount, st.supply.sym), claims := st.claims + 1)]
            && sym.code in RowsOf(r.after.accounts, from)
            && RowsOf(r.after.accounts, from)[sym.code].lastClaimDay == plan.newLastClaimDay
            && TotalHeld(r.after, sym.code) == TotalHeld(ledger, sym.code) + plan.amount
            && r.after.shares == ledger.shares
  {
    var plan := PlanFor(ledger, from, sym, today);
    var claimed := Claimed(ledger, from, sym, plan.amount, plan.newLastClaimDay);
    var credits := Payout(plan.amount, SharesOf(ledger, from), from);
    CreditAllKeepsRow(claimed, credits, sym, from, sym.code);
    PayoutConserves(plan.amount, SharesOf(ledger, from), from);
    CreditAllTotal(claimed, credits, sym, sym.code);
    var rows := RowsOf(ledger.accounts, from);
    HoldingsKeepBalance(ledger.accounts, from, rows[sym.code := rows[sym.code].(lastClaimDay := plan.newLastClaimDay)], sym.code);
  }

  /** Without a pending day, a claim changes nothing, and with `fail` it aborts saying so. */
  lemma UbiClaimNothingPending(ledger: Ledger, from: Name, sym: Symbol, today: TimeType, fail: bool)
    requires sym.code in ledger.stats && sym.code in RowsOf(ledger.accounts, from)
    requires RowsOf(ledger.accounts, from)[sym.code].lastClaimDay >= today
    ensures UbiClaim(ledger, from, sym, today, fail)
              == Step(if fail then Abort("no pending income to claim") else Ok, ledger)
  {
  }

  /**
   * With `fail` set, a claim paid in full is the only one of the day: settling again the same
   * day aborts with "no pending income to claim".
   */
  lemma SecondClaimSameDayAborts(ledger: Ledger, from: Name, sym: Symbol, today: TimeType)
    requires sym.code in ledger.stats && sym.code in RowsOf(ledger.accounts, from)
    requires PlanFor(ledger, from, sym, today).Pay?
    requires UncappedAmount(RowsOf(ledger.accounts, from)[sym.code].lastClaimDay, today)
               <= ledger.stats[sym.code].maxSupply.amount - ledger.stats[sym.code].supply.amount
    ensures var first := UbiClaim(ledger, from, sym, today, true).after;
            UbiClaim(first, from, sym, today, true) == Step(Abort("no pending income to claim"), first)
  {
    var st := ledger.stats[sym.code];
    var lcd := RowsOf(ledger.accounts, from)[sym.code].lastClaimDay;
    UbiClaimPays(ledger, from, sym, today, true);
    SecondClaimSameDayFindsNothing(lcd, today, st.supply.amount, st.maxSupply.amount);
  }

  /**
   * `claim` again on the same day, after a claim the supply cap did not cut, succeeds and
   * changes nothing: `open` settles with `fail` unset, so nothing pending is a silent no-op.
   */
  lemma SecondClaimSameDayIsNoOp(ledger: Ledger, owner: Name, today: TimeType)
    requires COIN_CODE in ledger.stats && ledger.stats[COIN_CODE].supply.sym == COIN_SYMBOL
    requires var rows := RowsOf(ledger.accounts, owner);
             var lcd := if COIN_CODE in rows then rows[COIN_CODE].lastClaimDay else 0;
             UncappedAmount(lcd, today) <= ledger.stats[COIN_CODE].maxSupply.amount - ledger.stats[COIN_CODE].supply.amount
    ensures var first := ClaimIncome(ledger, owner, today).after;
            ClaimIncome(first, owner, today) == Step(Ok, first)
  {
    var rows := RowsOf(ledger.accounts, owner);
    var withRow := if COIN_CODE in rows then ledger
      else ledger.(accounts := ledger.accounts[owner := rows[COIN_CODE := Account(Asset(0, COIN_SYMBOL), 0)]]);
    assert COIN_CODE in RowsOf(withRow.accounts, owner);
    var lcd := RowsOf(withRow.accounts, owner)[COIN_CODE].lastClaimDay;
    var st := ledger.stats[COIN_CODE];
    var first := ClaimIncome(ledger, owner, today).after;
    assert first == UbiClaim(withRow, owner, COIN_SYMBOL, today, false).after;
    match PlanFor(withRow, owner, COIN_SYMBOL, today)
    case Pay(_, _, _) =>
      UbiClaimPays(withRow, owner, COIN_SYMBOL, today, false);
      SecondClaimSameDayFindsNothing(lcd, today, st.supply.amount, st.maxSupply.amount);
      assert RowsOf(first.accounts, owner)[COIN_CODE].lastClaimDay == today;
    case NothingPending =>
      assert first == withRow;
    case NoCoins =>
      assert first == withRow;
      assert UbiClaim(first, owner, COIN_SYMBOL, today, false) == Step(Ok, first);
  }

  /**
   * A claim raises each owner's balance of the token by what its payout gives that owner, and
   * leaves every other balance alone.
   */
  lemma UbiClaimBalance(ledger: Ledger, from: Name, sym: Symbol, today: TimeType, fail: bool, owner: Name, code: SymCode)
    requires sym.code in ledger.stats
    ensures BalanceOf(UbiClaim(ledger, from, sym, today, fail).after.accounts, owner, code)
              == BalanceOf(ledger.accounts, owner, code)
                 + (if code == sym.code then Received(ClaimCredits(ledger, from, sym, today), owner) else 0)
  {
    if sym.code in RowsOf(ledger.accounts, from) && PlanFor(ledger, from, sym, today).Pay? {
      var plan := PlanFor(ledger, from, sym, today);
      var claimed := Claimed(ledger, from, sym, plan.amount, plan.newLastClaimDay);
      assert BalanceOf(claimed.accounts, owner, code) == BalanceOf(ledger.accounts, owner, code);
      CreditAllBalance(claimed, Payout(plan.amount, SharesOf(ledger, from), from), sym, owner, code);
    }
  }

  /** Debiting the sender and crediting the receiver leaves every other token's balance alone. */
  lemma TransferKeepsOtherTokens(settled: Ledger, from: Name, to: Name, quantity: Asset, owner: Name, c: SymCode)
    requires c != quantity.sym.code
    requires SubBalance(settled, from, quantity).outcome.Ok?
    ensures var debited := SubBalance(settled, from, quantity).after;
            BalanceOf(AddBalance(debited, to, quantity).accounts, owner, c) == BalanceOf(settled.accounts, owner, c)
  {
    var debited := SubBalance(settled, from, quantity).after;
    var code := quantity.sym.code;
    if owner == from {
      assert (RowsOf(debited.accounts, from) - {code}) == (RowsOf(settled.accounts, from) - {code});
      assert c in RowsOf(debited.accounts, from) <==> c in RowsOf(settled.accounts, from);
    }
    if owner == to {
      assert (RowsOf(AddBalance(debited, to, quantity).accounts, to) - {code}) == (RowsOf(debited.accounts, to) - {code});
      assert c in RowsOf(AddBalance(debited, to, quantity).accounts, to) <==> c in RowsOf(debited.accounts, to);
    }
  }

  /**
   * A claim books its payout in the token's stats row (the supply by the total paid out and,
   * when it paid, the claim count by one) and changes no other stats row and no share table.
   */
  lemma UbiClaimStats(ledger: Ledger, from: Name, sym: Symbol, today: TimeType, fail: bool)
    requires sym.code in ledger.stats
    ensures var st := ledger.stats[sym.code];
            var r := UbiClaim(ledger, from, sym, today, fail);
            var credits := ClaimCredits(ledger, from, sym, today);
            r.after.stats == ledger.stats[sym.code := st.(supply := Asset(st.supply.amount + CreditTotal(credits), st.supply.sym),
                                                          claims := st.claims + (if credits == [] then 0 else 1))]
            && r.after.shares == ledger.shares
  {
    var st := ledger.stats[sym.code];
    if ClaimCredits(ledger, from, sym, today) != [] {
      PayoutConserves(PlanFor(ledger, from, sym, today).amount, SharesOf(ledger, from), from);
      UbiClaimPays(ledger, from, sym, today, fail);
    } else {
      assert st.(supply := Asset(st.supply.amount, st.supply.sym), claims := st.claims) == st;
    }
  }

  /**
   * A `transfer` that succeeds changes each owner's balance of the token by what the sender's
   * claim pays it, minus the quantity for the sender and plus it for the receiver; the supply
   * grows by the claim.
   */
  lemma TransferBalances(ledger: Ledger, from: Name, to: Name, quantity: Asset, memo: string, today: TimeType, owner: Name)
    requires Transfer(ledger, from, to, quantity, memo, today).outcome.Ok?
    ensures var code := quantity.sym.code;
            var after := Transfer(ledger, from, to, quantity, memo, today).after;
            var credits := ClaimCredits(ledger, from, quantity.sym, today);
            after.stats[code].supply.amount == ledger.stats[code].supply.amount + CreditTotal(credits)
            && BalanceOf(after.accounts, owner, code)
                 == BalanceOf(ledger.accounts, owner, code) + Received(credits, owner)
                    + (if owner == to then quantity.amount else 0) - (if owner == from then quantity.amount else 0)
  {
    var code := quantity.sym.code;
    var settled := UbiClaim(ledger, from, quantity.sym, today, false).after;
    var credits := ClaimCredits(ledger, from, quantity.sym, today);
    UbiClaimBalance(ledger, from, quantity.sym, today, false, owner, code);
    TransferMoves(ledger, from, to, quantity, memo, today);
    if credits != [] {
      var plan := PlanFor(ledger, from, quantity.sym, today);
      PayoutConserves(plan.amount, SharesOf(ledger, from), from);
      UbiClaimPays(ledger, from, quantity.sym, today, false);
    } else {
      assert settled == ledger;
    }
  }

  /** A successful `transfer` leaves every balance of another token alone. */
  lemma TransferOtherToken(ledger: Ledger, from: Name, to: Name, quantity: Asset, memo: string, today: TimeType, owner: Name, c: SymCode)
    requires Transfer(ledger, from, to, quantity, memo, today).outcome.Ok? && c != quantity.sym.code
    ensures BalanceOf(Transfer(ledger, from, to, quantity, memo, today).after.accounts, owner, c) == BalanceOf(ledger.accounts, owner, c)
  {
    var settled := UbiClaim(ledger, from, quantity.sym, today, false).after;
    UbiClaimBalance(ledger, from, quantity.sym, today, false, owner, c);
    TransferKeepsOtherTokens(settled, from, to, quantity, owner, c);
  }

  /**
   * What else a successful `transfer` changes: the token's stats row takes the sender's claim
   * (supply and, when the claim paid, the claim count), and no other stats row, no share table
   * and no balance of another token changes.
   */
  lemma TransferFrame(ledger: Ledger, from: Name, to: Name, quantity: Asset, memo: string, today: TimeType)
    requires Transfer(ledger, from, to, quantity, memo, today).outcome.Ok?
    ensures var code := quantity.sym.code;
            var st := ledger.stats[code];
            var after := Transfer(ledger, from, to, quantity, memo, today).after;
            var credits := ClaimCredits(ledger, from, quantity.sym, today);
            after.stats == ledger.stats[code := st.(supply := Asset(st.supply.amount + CreditTotal(credits), st.supply.sym),
                                                    claims := st.claims + (if credits == [] then 0 else 1))]
            && after.shares == ledger.shares
            && forall o, c :: c != code ==> BalanceOf(after.accounts, o, c) == BalanceOf(ledger.accounts, o, c)
  {
    TransferMoves(ledger, from, to, quantity, memo, today);
    UbiClaimStats(ledger, from, quantity.sym, today, false);
    forall o, c | c != quantity.sym.code
      ensures BalanceOf(Transfer(ledger, from, to, quantity, memo, today).after.accounts, o, c) == BalanceOf(ledger.accounts, o, c)
    {
      TransferOtherToken(ledger, from, to, quantity, memo, today, o, c);
    }
  }



  /**
   * The issuer, credited with the quantity on tables where no balance is negative, can pay
   * the inline transfer: its claim only adds to its balance.
   */
  lemma IssueSettlesIssuer(ledger: Ledger, to: Name, quantity: Asset, memo: string, today: TimeType)
    requires RowsOk(ledger)
    requires quantity.sym.code in ledger.stats && to != ledger.stats[quantity.sym.code].issuer
    requires var st := ledger.stats[quantity.sym.code];
             |memo| <= MAX_MEMO_SIZE && quantity.amount > 0 && quantity.sym == st.supply.sym
             && quantity.amount <= st.maxSupply.amount - st.supply.amount
    ensures var issuer := ledger.stats[quantity.sym.code].issuer;
            var credited := AddBalance(Raised(ledger, quantity), issuer, quantity);
            Transfer(credited, issuer, to, quantity, memo, today).outcome.Ok?
            && Issue(ledger, to, quantity, memo, today) == Transfer(credited, issuer, to, quantity, memo, today)
  {
    var code := quantity.sym.code;
    var issuer := ledger.stats[code].issuer;
    var credited := AddBalance(Raised(ledger, quantity), issuer, quantity);
    var credits := ClaimCredits(credited, issuer, quantity.sym, today);
    if code in RowsOf(ledger.accounts, issuer) {
      assert BalanceOf(ledger.accounts, issuer, code) >= 0;
    }
    if credits != [] {
      PayoutConserves(PlanFor(credited, issuer, quantity.sym, today).amount, SharesOf(credited, issuer), issuer);
    }
    ReceivedNonNegative(credits, issuer);
    UbiClaimBalance(credited, issuer, quantity.sym, today, false, issuer, code);
    TransferSucceeds(credited, issuer, to, quantity, memo, today);
  }

  /** Issuing first raises the supply and credits the issuer; nothing else changes. */
  lemma IssuerCredited(ledger: Ledger, quantity: Asset)
    requires quantity.sym.code in ledger.stats
    ensures var code := quantity.sym.code;
            var st := ledger.stats[code];
            var credited := AddBalance(Raised(ledger, quantity), st.issuer, quantity);
            credited.stats == ledger.stats[code := st.(supply := Asset(st.supply.amount + quantity.amount, st.supply.sym))]
            && credited.shares == ledger.shares
            && (forall o :: BalanceOf(credited.accounts, o, code)
                              == BalanceOf(ledger.accounts, o, code) + (if o == st.issuer then quantity.amount else 0))
            && (forall o, c :: c != code ==> BalanceOf(credited.accounts, o, c) == BalanceOf(ledger.accounts, o, c))
  {
    var code := quantity.sym.code;
    var st := ledger.stats[code];
    var credited := AddBalance(Raised(ledger, quantity), st.issuer, quantity);
    forall o, c | c != code
      ensures BalanceOf(credited.accounts, o, c) == BalanceOf(ledger.accounts, o, c)
    {
      if o == st.issuer {
        assert c in RowsOf(credited.accounts, o) <==> c in RowsOf(ledger.accounts, o);
      }
    }
  }

  /**
   * `issue` to a receiver other than the issuer, on tables where no balance is negative,
   * succeeds exactly when the request is well formed and within the maximum supply. The
   * issuer is credited, then its inline transfer settles the issuer's own pending income and
   * moves the quantity. Every owner's balance of the token then changes by what the issuer's
   * claim pays it, and the receiver's also by the quantity: the issuer's share beneficiaries
   * gain their portions, the issuer its residue, and everyone else nothing.
   */
  lemma IssueToOther(ledger: Ledger, to: Name, quantity: Asset, memo: string, today: TimeType)
    requires RowsOk(ledger)
    requires quantity.sym.code in ledger.stats && to != ledger.stats[quantity.sym.code].issuer
    ensures var code := quantity.sym.code;
            var st := ledger.stats[code];
            var r := Issue(ledger, to, quantity, memo, today);
            var credits := ClaimCredits(AddBalance(Raised(ledger, quantity), st.issuer, quantity), st.issuer, quantity.sym, today);
            (r.outcome.Ok? <==> |memo| <= MAX_MEMO_SIZE && quantity.amount > 0 && quantity.sym == st.supply.sym
                                && quantity.amount <= st.maxSupply.amount - st.supply.amount)
            && (r.outcome.Ok? ==>
                  r.after.stats[code].supply.amount == st.supply.amount + quantity.amount + CreditTotal(credits)
                  && BalanceOf(r.after.accounts, to, code)
                       == BalanceOf(ledger.accounts, to, code) + quantity.amount + Received(credits, to)
                  && BalanceOf(r.after.accounts, st.issuer, code)
                       == BalanceOf(ledger.accounts, st.issuer, code) + Received(credits, st.issuer)
                  && forall o :: BalanceOf(r.after.accounts, o, code)
                                   == BalanceOf(ledger.accounts, o, code) + Received(credits, o) + (if o == to then quantity.amount else 0))
  {
    var code := quantity.sym.code;
    var st := ledger.stats[code];
    if |memo| <= MAX_MEMO_SIZE && quantity.amount > 0 && quantity.sym == st.supply.sym
       && quantity.amount <= st.maxSupply.amount - st.supply.amount {
      var credited := AddBalance(Raised(ledger, quantity), st.issuer, quantity);
      IssueSettlesIssuer(ledger, to, quantity, memo, today);
      IssuerCredited(ledger, quantity);
      TransferBalances(credited, st.issuer, to, quantity, memo, today, to);
      forall o
        ensures BalanceOf(Transfer(credited, st.issuer, to, quantity, memo, today).after.accounts, o, code)
                  == BalanceOf(ledger.accounts, o, code) + Received(ClaimCredits(credited, st.issuer, quantity.sym, today), o)
                     + (if o == to then quantity.amount else 0)
      {
        TransferBalances(credited, st.issuer, to, quantity, memo, today, o);
      }
    }
  }

  /**
   * The stats after a well-formed `issue` to another receiver (one that succeeds, by
   * `IssueToOther`): the token's supply grows by the quantity and the issuer's claim, its
   * claim count by one when the claim paid, and no other stats row changes.
   */
  lemma IssueToOtherStats(ledger: Ledger, to: Name, quantity: Asset, memo: string, today: TimeType)
    requires RowsOk(ledger)
    requires quantity.sym.code in ledger.stats && to != ledger.stats[quantity.sym.code].issuer
    requires var st := ledger.stats[quantity.sym.code];
             |memo| <= MAX_MEMO_SIZE && quantity.amount > 0 && quantity.sym == st.supply.sym
             && quantity.amount <= st.maxSupply.amount - st.supply.amount
    ensures var code := quantity.sym.code;
            var st := ledger.stats[code];
            var credits := ClaimCredits(AddBalance(Raised(ledger, quantity), st.issuer, quantity), st.issuer, quantity.sym, today);
            Issue(ledger, to, quantity, memo, today).after.stats
              == ledger.stats[code := st.(supply := Asset(st.supply.amount + quantity.amount + CreditTotal(credits), st.supply.sym),
                                          claims := st.claims + (if credits == [] then 0 else 1))]
  {
    var st := ledger.stats[quantity.sym.code];
    var credited := AddBalance(Raised(ledger, quantity), st.issuer, quantity);
    IssueSettlesIssuer(ledger, to, quantity, memo, today);
    IssuerCredited(ledger, quantity);
    TransferFrame(credited, st.issuer, to, quantity, memo, today);
  }

  /**
   * The rest of a well-formed `issue` to another receiver: no share table and no balance of
   * another token changes.
   */
  lemma IssueToOtherFrame(ledger: Ledger, to: Name, quantity: Asset, memo: string, today: TimeType)
    requires RowsOk(ledger)
    requires quantity.sym.code in ledger.stats && to != ledger.stats[quantity.sym.code].issuer
    requires var st := ledger.stats[quantity.sym.code];
             |memo| <= MAX_MEMO_SIZE && quantity.amount > 0 && quantity.sym == st.supply.sym
             && quantity.amount <= st.maxSupply.amount - st.supply.amount
    ensures var code := quantity.sym.code;
            var r := Issue(ledger, to, quantity, memo, today);
            r.after.shares == ledger.shares
            && forall o, c :: c != code ==> BalanceOf(r.after.accounts, o, c) == BalanceOf(ledger.accounts, o, c)
  {
    var st := ledger.stats[quantity.sym.code];
    var credited := AddBalance(Raised(ledger, quantity), st.issuer, quantity);
    IssueSettlesIssuer(ledger, to, quantity, memo, today);
    IssuerCredited(ledger, quantity);
    TransferFrame(credited, st.issuer, to, quantity, memo, today);
  }

  /** When `transfer` succeeds: the sender's claim is settled, then the quantity moves from sender to receiver. */
  lemma TransferMoves(ledger: Ledger, from: Name, to: Name, quantity: Asset, memo: string, today: TimeType)
    requires Transfer(ledger, from, to, quantity, memo, today).outcome.Ok?
    ensures var code := quantity.sym.code;
            var settled := UbiClaim(ledger, from, quantity.sym, today, false).after;
            var after := Transfer(ledger, from, to, quantity, memo, today).after;
            after.stats == settled.stats && after.shares == ledger.shares
            && BalanceOf(after.accounts, from, code) == BalanceOf(settled.accounts, from, code) - quantity.amount
            && BalanceOf(after.accounts, to, code) == BalanceOf(settled.accounts, to, code) + quantity.amount
            && forall o :: o != from && o != to ==> RowsOf(after.accounts, o) == RowsOf(settled.accounts, o)
  {
  }

  /**
   * `transfer` succeeds exactly when the request is well formed and the sender, once its
   * pending income is settled, has a row holding enough.
   */
  lemma TransferSucceeds(ledger: Ledger, from: Name, to: Name, quantity: Asset, memo: string, today: TimeType)
    ensures var code := quantity.sym.code;
            Transfer(ledger, from, to, quantity, memo, today).outcome.Ok?
            <==> from != to && code in ledger.stats && quantity.amount > 0
                 && quantity.sym == ledger.stats[code].supply.sym && |memo| <= MAX_MEMO_SIZE
                 && code in RowsOf(ledger.accounts, from)
                 && BalanceOf(UbiClaim(ledger, from, quantity.sym, today, false).after.accounts, from, code) >= quantity.amount
  {
    var code := quantity.sym.code;
    if from != to && code in ledger.stats && code in RowsOf(ledger.accounts, from) {
      var settled := UbiClaim(ledger, from, quantity.sym, today, false).after;
      if PlanFor(ledger, from, quantity.sym, today).Pay? {
        UbiClaimPays(ledger, from, quantity.sym, today, false);
      }
      assert code in RowsOf(settled.accounts, from);
    }
  }

  /**
   * `issue` to the issuer succeeds exactly when the request is well formed and within the
   * maximum supply; it then raises the supply and the issuer's balance by the quantity. The
   * issuer's row keeps its last claim day (a new one starts at zero), and no other stats row,
   * account row or share table changes.
   */
  lemma IssueToIssuer(ledger: Ledger, quantity: Asset, memo: string, today: TimeType)
    requires quantity.sym.code in ledger.stats
    ensures var code := quantity.sym.code;
            var st := ledger.stats[code];
            var r := Issue(ledger, st.issuer, quantity, memo, today);
            (r.outcome.Ok? <==> |memo| <= MAX_MEMO_SIZE && quantity.amount > 0 && quantity.sym == st.supply.sym
                                && quantity.amount <= st.maxSupply.amount - st.supply.amount)
            && (r.outcome.Ok? ==>
                  r.after.stats[code].supply.amount == st.supply.amount + quantity.amount
                  && BalanceOf(r.after.accounts, st.issuer, code) == BalanceOf(ledger.accounts, st.issuer, code) + quantity.amount
                  && r.after.stats == ledger.stats[code := st.(supply := Asset(st.supply.amount + quantity.amount, st.supply.sym))]
                  && code in RowsOf(r.after.accounts, st.issuer)
                  && RowsOf(r.after.accounts, st.issuer)[code].lastClaimDay
                       == (if code in RowsOf(ledger.accounts, st.issuer) then RowsOf(ledger.accounts, st.issuer)[code].lastClaimDay else 0)
                  && RowsOf(r.after.accounts, st.issuer) - {code} == RowsOf(ledger.accounts, st.issuer) - {code}
                  && (forall o :: o != st.issuer ==> RowsOf(r.after.accounts, o) == RowsOf(ledger.accounts, o))
                  && r.after.shares == ledger.shares)
  {
  }

  /**
   * `retire` succeeds exactly when the request is well formed and the issuer holds enough;
   * the quantity then leaves the supply and the issuer's balance and joins the burned total.
   * The issuer's row keeps its last claim day, and no other stats row, account row or share
   * table changes.
   */
  lemma RetireEffect(ledger: Ledger, quantity: Asset, memo: string)
    requires quantity.sym.code in ledger.stats
    ensures var code := quantity.sym.code;
            var st := ledger.stats[code];
            var r := Retire(ledger, quantity, memo);
            (r.outcome.Ok? <==> |memo| <= MAX_MEMO_SIZE && quantity.amount > 0 && quantity.sym == st.supply.sym
                                && code in RowsOf(ledger.accounts, st.issuer)
                                && BalanceOf(ledger.accounts, st.issuer, code) >= quantity.amount)
            && (r.outcome.Ok? ==>
                  r.after.stats[code].supply.amount == st.supply.amount - quantity.amount
                  && r.after.stats[code].burned.amount == st.burned.amount + quantity.amount
                  && BalanceOf(r.after.accounts, st.issuer, code) == BalanceOf(ledger.accounts, st.issuer, code) - quantity.amount
                  && r.after.stats == ledger.stats[code := st.(supply := Asset(st.supply.amount - quantity.amount, st.supply.sym),
                                                                burned := Asset(st.burned.amount + quantity.amount, st.burned.sym))]
                  && code in RowsOf(r.after.accounts, st.issuer)
                  && RowsOf(r.after.accounts, st.issuer)[code].lastClaimDay == RowsOf(ledger.accounts, st.issuer)[code].lastClaimDay
                  && RowsOf(r.after.accounts, st.issuer) - {code} == RowsOf(ledger.accounts, st.issuer) - {code}
                  && (forall o :: o != st.issuer ==> RowsOf(r.after.accounts, o) == RowsOf(ledger.accounts, o))
                  && r.after.shares == ledger.shares)
  {
  }

  /**
   * `burn` succeeds exactly when the request is well formed and the owner holds enough; the
   * quantity then leaves the supply and the owner's balance and joins the burned total. The
   * owner's row keeps its last claim day, and no other stats row, account row or share table
   * changes.
   */
  lemma BurnEffect(ledger: Ledger, owner: Name, quantity: Asset)
    requires quantity.sym.code in ledger.stats
    ensures var code := quantity.sym.code;
            var st := ledger.stats[code];
            var r := Burn(ledger, owner, quantity);
            (r.outcome.Ok? <==> quantity.amount > 0 && quantity.sym == st.supply.sym
                                && code in RowsOf(ledger.accounts, owner)
                                && BalanceOf(ledger.accounts, owner, code) >= quantity.amount)
            && (r.outcome.Ok? ==>
                  r.after.stats[code].supply.amount == st.supply.amount - quantity.amount
                  && r.after.stats[code].burned.amount == st.burned.amount + quantity.amount
                  && BalanceOf(r.after.accounts, owner, code) == BalanceOf(ledger.accounts, owner, code) - quantity.amount
                  && r.after.stats == ledger.stats[code := st.(supply := Asset(st.supply.amount - quantity.amount, st.supply.sym),
                                                                burned := Asset(st.burned.amount + quantity.amount, st.burned.sym))]
                  && code in RowsOf(r.after.accounts, owner)
                  && RowsOf(r.after.accounts, owner)[code].lastClaimDay == RowsOf(ledger.accounts, owner)[code].lastClaimDay
                  && RowsOf(r.after.accounts, owner) - {code} == RowsOf(ledger.accounts, owner) - {code}
                  && (forall o :: o != owner ==> RowsOf(r.after.accounts, o) == RowsOf(ledger.accounts, o))
                  && r.after.shares == ledger.shares)
  {
  }

  /**
   * `close` succeeds exactly for an empty row whose income was not claimed today, after the
   * reward period; it erases that row and no other, and leaves the stats and share tables.
   */
  lemma CloseEffect(ledger: Ledger, owner: Name, sym: Symbol, today: TimeType)
    ensures var rows := RowsOf(ledger.accounts, owner);
            var r := Close(ledger, owner, sym, today);
            (r.outcome.Ok? <==> sym.code in rows && rows[sym.code].balance.amount == 0
                                && (rows[sym.code].lastClaimDay == 0 || rows[sym.code].lastClaimDay < today)
                                && today > LAST_SIGNUP_REWARD_DAY)
            && (r.outcome.Ok? ==> RowsOf(r.after.accounts, owner) == rows - {sym.code}
                                  && (forall o :: o != owner ==> RowsOf(r.after.accounts, o) == RowsOf(ledger.accounts, o))
                                  && r.after.stats == ledger.stats && r.after.shares == ledger.shares)
  {
  }

  /**
   * `setshare` on an ordered table succeeds exactly when the percent is valid, the
   * beneficiary is not the owner and the new total is at most 100%; the table then maps the
   * beneficiary to the percent, or drops it for zero, and keeps every other row; no other
   * owner's share table, no stats row and no account row changes.
   */
  lemma SetShareEffect(ledger: Ledger, owner: Name, to: Name, percent: Percent)
    requires Ascending(SharesOf(ledger, owner))
    ensures var table := SharesOf(ledger, owner);
            var r := SetShare(ledger, owner, to, percent);
            (r.outcome.Ok? <==> percent <= 100 && owner != to
                                && PercentSum(table) - PercentOf(table, to) + percent <= 100)
            && (r.outcome.Ok? ==>
                  AsMap(SharesOf(r.after, owner)) == (if percent > 0 then AsMap(table)[to := percent] else AsMap(table) - {to})
                  && r.after.stats == ledger.stats && r.after.accounts == ledger.accounts
                  && forall o :: o != owner ==> SharesOf(r.after, o) == SharesOf(ledger, o))
  {
    SetEntrySum(SharesOf(ledger, owner), to, percent);
    SetEntryMap(SharesOf(ledger, owner), to, percent);
  }

  /**
   * `create` succeeds exactly for a positive maximum, the coin's precision and a new symbol.
   * It adds one stats row with zero supply, zero burned and no claims, and changes nothing else.
   */
  lemma CreateEffect(ledger: Ledger, issuer: Name, maximumSupply: Asset)
    ensures var r := Create(ledger, issuer, maximumSupply);
            var code := maximumSupply.sym.code;
            (r.outcome.Ok? <==> maximumSupply.amount > 0 && maximumSupply.sym.precision == SYMBOL_PRECISION
                                && code !in ledger.stats)
            && (r.outcome.Ok? ==> GetSupply(r.after, code) == Found(Asset(0, maximumSupply.sym))
                                  && r.after.stats[code].maxSupply == maximumSupply
                                  && r.after.stats[code].issuer == issuer
                                  && r.after.stats == ledger.stats[code := CurrencyStats(Asset(0, maximumSupply.sym), maximumSupply, issuer, Asset(0, maximumSupply.sym), 0)]
                                  && r.after.accounts == ledger.accounts && r.after.shares == ledger.shares)
  {
  }
}
