/**
 * The contract's tables as one value: the stats row of each token, each owner's balance
 * rows, and each owner's share table, with `add_balance` and `sub_balance` and the sum of
 * the balances of a token.
 */
module Tables {
  import opened Types
  import opened Claim

  /**
   * The state of the contract: `stat` rows keyed by symbol code; `accounts` rows scoped by
   * owner and keyed by symbol code, so an owner has at most one balance row per token; share
   * tables scoped by owner.
   */
  datatype Ledger = Ledger(
    stats: map<SymCode, CurrencyStats>,
    accounts: map<Name, map<SymCode, Account>>,
    shares: map<Name, seq<Share>>)

  /** What an action did: its outcome and the tables after it (the tables before it when it aborted). */
  datatype Step = Step(outcome: Outcome, after: Ledger)

  /** An owner's balance rows; an owner who never had one has none. */
  function RowsOf(accounts: map<Name, map<SymCode, Account>>, owner: Name): map<SymCode, Account>
  {
    if owner in accounts then accounts[owner] else map[]
  }

  /** An owner's share table; an owner who never set a share has an empty one. */
  function SharesOf(ledger: Ledger, owner: Name): seq<Share>
  {
    if owner in ledger.shares then ledger.shares[owner] else []
  }

  /** The balance an owner holds of a token, zero without a row. */
  function BalanceOf(accounts: map<Name, map<SymCode, Account>>, owner: Name, code: SymCode): int
  {
    var rows := RowsOf(accounts, owner);
    if code in rows then rows[code].balance.amount else 0
  }

  /**
   * `add_balance`: adds to the owner's row, or creates the row holding `value` with a last
   * claim day of zero.
   */
  function AddBalance(ledger: Ledger, owner: Name, value: Asset): (r: Ledger)
    ensures r.stats == ledger.stats && r.shares == ledger.shares
    ensures value.sym.code in RowsOf(r.accounts, owner)
    ensures BalanceOf(r.accounts, owner, value.sym.code) == BalanceOf(ledger.accounts, owner, value.sym.code) + value.amount
    ensures forall o :: o != owner ==> RowsOf(r.accounts, o) == RowsOf(ledger.accounts, o)
    ensures RowsOf(r.accounts, owner) - {value.sym.code} == RowsOf(ledger.accounts, owner) - {value.sym.code}
    ensures var rows := RowsOf(ledger.accounts, owner);
            var row := RowsOf(r.accounts, owner)[value.sym.code];
            if value.sym.code in rows
            then row.lastClaimDay == rows[value.sym.code].lastClaimDay && row.balance.sym == rows[value.sym.code].balance.sym
            else row.lastClaimDay == 0 && row.balance.sym == value.sym
  {
    var rows := RowsOf(ledger.accounts, owner);
    var code := value.sym.code;
    var row := if code in rows
      then Account(Asset(rows[code].balance.amount + value.amount, rows[code].balance.sym), rows[code].lastClaimDay)
      else Account(value, 0);
    ledger.(accounts := ledger.accounts[owner := rows[code := row]])
  }

  /** `sub_balance`: takes from the owner's row, which must exist and hold enough. */
  function SubBalance(ledger: Ledger, owner: Name, value: Asset): (r: Step)
    ensures r.outcome.Abort? ==> r.after == ledger
    ensures r.outcome.Ok? <==> value.sym.code in RowsOf(ledger.accounts, owner)
                               && BalanceOf(ledger.accounts, owner, value.sym.code) >= value.amount
    ensures r.after.stats == ledger.stats && r.after.shares == ledger.shares
    ensures r.outcome.Ok? ==> BalanceOf(r.after.accounts, owner, value.sym.code)
                                == BalanceOf(ledger.accounts, owner, value.sym.code) - value.amount
    ensures forall o :: o != owner ==> RowsOf(r.after.accounts, o) == RowsOf(ledger.accounts, o)
    ensures RowsOf(r.after.accounts, owner) - {value.sym.code} == RowsOf(ledger.accounts, owner) - {value.sym.code}
    ensures r.outcome.Ok? ==> value.sym.code in RowsOf(r.after.accounts, owner)
    ensures r.outcome.Ok? ==>
              var row := RowsOf(r.after.accounts, owner)[value.sym.code];
              var before := RowsOf(ledger.accounts, owner)[value.sym.code];
              row.lastClaimDay == before.lastClaimDay && row.balance.sym == before.balance.sym
  {
    var rows := RowsOf(ledger.accounts, owner);
    var code := value.sym.code;
    if code !in rows then Step(Abort("no balance object found"), ledger)
    else if rows[code].balance.amount < value.amount then Step(Abort("overdrawn balance"), ledger)
    else
      var row := Account(Asset(rows[code].balance.amount - value.amount, rows[code].balance.sym), rows[code].lastClaimDay);
      Step(Ok, ledger.(accounts := ledger.accounts[owner := rows[code := row]]))
  }

  /** The credits of a claim payout, applied with `add_balance` one after the other. */
  function CreditAll(ledger: Ledger, credits: seq<Credit>, sym: Symbol): (r: Ledger)
    ensures r.stats == ledger.stats && r.shares == ledger.shares
    decreases credits
  {
    if credits == [] then ledger
    else CreditAll(AddBalance(ledger, credits[0].to, Asset(credits[0].amount, sym)), credits[1..], sym)
  }

  /** Crediting keeps every existing row, and no credit moves a last claim day. */
  lemma {:induction false} CreditAllKeepsRow(ledger: Ledger, credits: seq<Credit>, sym: Symbol, owner: Name, code: SymCode)
    requires code in RowsOf(ledger.accounts, owner)
    ensures code in RowsOf(CreditAll(ledger, credits, sym).accounts, owner)
    ensures RowsOf(CreditAll(ledger, credits, sym).accounts, owner)[code].lastClaimDay
              == RowsOf(ledger.accounts, owner)[code].lastClaimDay
    decreases credits
  {
    if credits != [] {
      CreditAllKeepsRow(AddBalance(ledger, credits[0].to, Asset(credits[0].amount, sym)), credits[1..], sym, owner, code);
    }
  }

  /** Applying a first credit, then the others. */
  lemma CreditAllCons(ledger: Ledger, credit: Credit, rest: seq<Credit>, sym: Symbol)
    ensures CreditAll(ledger, [credit] + rest, sym)
              == CreditAll(AddBalance(ledger, credit.to, Asset(credit.amount, sym)), rest, sym)
  {
    assert ([credit] + rest)[1..] == rest;
  }

  /** What the credits give `owner`: the sum of the credits addressed to it. */
  function Received(credits: seq<Credit>, owner: Name): int
    decreases credits
  {
    if credits == [] then 0
    else (if credits[0].to == owner then credits[0].amount else 0) + Received(credits[1..], owner)
  }

  /** No owner receives a negative sum from credits that are not negative. */
  lemma {:induction false} ReceivedNonNegative(credits: seq<Credit>, owner: Name)
    requires forall i :: 0 <= i < |credits| ==> credits[i].amount >= 0
    ensures Received(credits, owner) >= 0
    decreases credits
  {
    if credits != [] {
      ReceivedNonNegative(credits[1..], owner);
    }
  }

  /**
   * Applying the credits raises each owner's balance of the token by what the credits give
   * that owner, and leaves its balances of other tokens alone.
   */
  lemma {:induction false} CreditAllBalance(ledger: Ledger, credits: seq<Credit>, sym: Symbol, owner: Name, code: SymCode)
    ensures BalanceOf(CreditAll(ledger, credits, sym).accounts, owner, code)
              == BalanceOf(ledger.accounts, owner, code) + (if code == sym.code then Received(credits, owner) else 0)
    decreases credits
  {
    if credits != [] {
      var next := AddBalance(ledger, credits[0].to, Asset(credits[0].amount, sym));
      if code != sym.code && owner == credits[0].to {
        assert RowsOf(next.accounts, owner) - {sym.code} == RowsOf(ledger.accounts, owner) - {sym.code};
        assert code in RowsOf(next.accounts, owner) <==> code in RowsOf(ledger.accounts, owner);
        if code in RowsOf(ledger.accounts, owner) {
          assert RowsOf(next.accounts, owner)[code] == (RowsOf(next.accounts, owner) - {sym.code})[code];
          assert RowsOf(ledger.accounts, owner)[code] == (RowsOf(ledger.accounts, owner) - {sym.code})[code];
        }
      }
      CreditAllBalance(next, credits[1..], sym, owner, code);
    }
  }

  /** The balances of one token, by owner. */
  function Holdings(accounts: map<Name, map<SymCode, Account>>, code: SymCode): map<Name, int>
  {
    map owner | owner in accounts && code in accounts[owner] :: accounts[owner][code].balance.amount
  }

  ghost function Pick(m: map<Name, int>): Name
    requires m != map[]
  {
    var k :| k in m; k
  }

  /** The sum of the values of a map. */
  ghost function Total(m: map<Name, int>): int
    decreases |m|
  {
    if m == map[] then 0 else var k := Pick(m); m[k] + Total(m - {k})
  }

  /** Any entry can be taken out of the sum first. */
  lemma {:induction false} TotalRemove(m: map<Name, int>, k: Name)
    requires k in m
    ensures Total(m) == m[k] + Total(m - {k})
    decreases |m|
  {
    var j := Pick(m);
    if j != k {
      assert |m - {j}| < |m|;
      TotalRemove(m - {j}, k);
      TotalRemove(m - {k}, j);
      assert m - {j} - {k} == m - {k} - {j};
    }
  }

  /** Setting one entry changes the sum by the difference. */
  lemma TotalUpdate(m: map<Name, int>, k: Name, v: int)
    ensures Total(m[k := v]) == Total(m) - (if k in m then m[k] else 0) + v
  {
    TotalRemove(m[k := v], k);
    if k in m {
      TotalRemove(m, k);
      assert m[k := v] - {k} == m - {k};
    } else {
      assert m[k := v] - {k} == m;
    }
  }

  /** A sum of values that are not negative is not negative. */
  lemma {:induction false} TotalNonNegative(m: map<Name, int>)
    requires forall k :: k in m ==> m[k] >= 0
    ensures Total(m) >= 0
    decreases |m|
  {
    if m != map[] {
      var k := Pick(m);
      TotalNonNegative(m - {k});
    }
  }

  /** Each value that is part of a sum of values that are not negative is at most the sum. */
  lemma EntryWithinTotal(m: map<Name, int>, k: Name)
    requires forall j :: j in m ==> m[j] >= 0
    requires k in m
    ensures 0 <= m[k] <= Total(m)
  {
    TotalRemove(m, k);
    TotalNonNegative(m - {k});
  }

  /** Replacing one owner's rows changes the holdings of a token in that owner's entry only. */
  lemma HoldingsSetRows(accounts: map<Name, map<SymCode, Account>>, owner: Name, rows: map<SymCode, Account>, code: SymCode)
    ensures Holdings(accounts[owner := rows], code)
              == if code in rows then Holdings(accounts, code)[owner := rows[code].balance.amount]
                 else Holdings(accounts, code) - {owner}
  {
  }

  /** Replacing an owner's rows by rows that hold the same balance of a token keeps that token's holdings. */
  lemma HoldingsKeepBalance(accounts: map<Name, map<SymCode, Account>>, owner: Name, rows: map<SymCode, Account>, code: SymCode)
    requires code in rows <==> code in RowsOf(accounts, owner)
    requires code in rows ==> rows[code].balance.amount == RowsOf(accounts, owner)[code].balance.amount
    ensures Holdings(accounts[owner := rows], code) == Holdings(accounts, code)
  {
    HoldingsSetRows(accounts, owner, rows, code);
    var h := Holdings(accounts, code);
    if code in rows {
      assert h[owner := rows[code].balance.amount] == h;
    } else {
      assert h - {owner} == h;
    }
  }

  /** The sum of the balances of a token over all owners. */
  ghost function TotalHeld(ledger: Ledger, code: SymCode): int
  {
    Total(Holdings(ledger.accounts, code))
  }

  /** `add_balance` raises the sum of its token's balances by the value, and no other token's. */
  lemma AddBalanceTotal(ledger: Ledger, owner: Name, value: Asset, code: SymCode)
    ensures TotalHeld(AddBalance(ledger, owner, value), code)
              == TotalHeld(ledger, code) + (if code == value.sym.code then value.amount else 0)
  {
    var rows := RowsOf(ledger.accounts, owner);
    var after := AddBalance(ledger, owner, value);
    var newRows := RowsOf(after.accounts, owner);
    HoldingsSetRows(ledger.accounts, owner, newRows, code);
    var h := Holdings(ledger.accounts, code);
    assert owner in h <==> code in rows;
    if code == value.sym.code {
      TotalUpdate(h, owner, BalanceOf(ledger.accounts, owner, code) + value.amount);
    } else if code in rows {
      assert newRows[code] == rows[code];
      assert h[owner := rows[code].balance.amount] == h;
    } else {
      assert h - {owner} == h;
    }
  }

  /** `sub_balance` lowers the sum of its token's balances by the value, and no other token's. */
  lemma SubBalanceTotal(ledger: Ledger, owner: Name, value: Asset, code: SymCode)
    requires SubBalance(ledger, owner, value).outcome.Ok?
    ensures TotalHeld(SubBalance(ledger, owner, value).after, code)
              == TotalHeld(ledger, code) - (if code == value.sym.code then value.amount else 0)
  {
    var rows := RowsOf(ledger.accounts, owner);
    var after := SubBalance(ledger, owner, value).after;
    var newRows := RowsOf(after.accounts, owner);
    HoldingsSetRows(ledger.accounts, owner, newRows, code);
    var h := Holdings(ledger.accounts, code);
    assert owner in h <==> code in rows;
    if code == value.sym.code {
      TotalUpdate(h, owner, BalanceOf(ledger.accounts, owner, code) - value.amount);
    } else if code in rows {
      assert newRows[code] == rows[code];
      assert h[owner := rows[code].balance.amount] == h;
    } else {
      assert h - {owner} == h;
    }
  }

  /** Applying the credits raises the sum of the token's balances by their total. */
  lemma {:induction false} CreditAllTotal(ledger: Ledger, credits: seq<Credit>, sym: Symbol, code: SymCode)
    ensures TotalHeld(CreditAll(ledger, credits, sym), code)
              == TotalHeld(ledger, code) + (if code == sym.code then CreditTotal(credits) else 0)
    decreases credits
  {
    if credits != [] {
      var next := AddBalance(ledger, credits[0].to, Asset(credits[0].amount, sym));
      AddBalanceTotal(ledger, credits[0].to, Asset(credits[0].amount, sym), code);
      CreditAllTotal(next, credits[1..], sym, code);
    }
  }
}
