/**
 * Sequences of actions: each action is applied to the tables the previous one left, an
 * aborted one leaving them as they were. Along any sequence the invariant holds, tokens are
 * never removed, their maximum supply, issuer and symbol never change, and the burned total
 * and the claim count never decrease.
 */
module Runs {
  import opened Types
  import opened Tables
  import opened Actions
  import opened Invariants

  /** A request to the contract, with the arguments of its action. */
  datatype Action =
    | CreateToken(issuer: Name, maximumSupply: Asset)
    | IssueTokens(to: Name, quantity: Asset, memo: string)
    | RetireTokens(quantity: Asset, memo: string)
    | TransferTokens(from: Name, to: Name, quantity: Asset, memo: string)
    | OpenRow(owner: Name, sym: Symbol)
    | CloseRow(owner: Name, sym: Symbol)
    | ClaimOwn(owner: Name)
    | ClaimOnBehalf(owner: Name, ramPayer: Name)
    | BurnTokens(owner: Name, quantity: Asset)
    | SetShareRow(owner: Name, to: Name, percent: Percent)
    | ResetShares(owner: Name)

  /** One action on day `today`. */
  function Apply(ledger: Ledger, action: Action, today: TimeType): Step
  {
    match action
    case CreateToken(issuer, maximumSupply) => Create(ledger, issuer, maximumSupply)
    case IssueTokens(to, quantity, memo) => Issue(ledger, to, quantity, memo, today)
    case RetireTokens(quantity, memo) => Retire(ledger, quantity, memo)
    case TransferTokens(from, to, quantity, memo) => Transfer(ledger, from, to, quantity, memo, today)
    case OpenRow(owner, sym) => Open(ledger, owner, sym, today)
    case CloseRow(owner, sym) => Close(ledger, owner, sym, today)
    case ClaimOwn(owner) => ClaimIncome(ledger, owner, today)
    case ClaimOnBehalf(owner, ramPayer) => ClaimFor(ledger, owner, ramPayer, today)
    case BurnTokens(owner, quantity) => Burn(ledger, owner, quantity)
    case SetShareRow(owner, to, percent) => SetShare(ledger, owner, to, percent)
    case ResetShares(owner) => ResetShare(ledger, owner)
  }

  /** A request and the day of the block it is in. */
  datatype Request = Request(action: Action, today: TimeType)

  /** The tables after the requests, in order. */
  function Run(ledger: Ledger, requests: seq<Request>): Ledger
    decreases |requests|
  {
    if requests == [] then ledger
    else Run(Apply(ledger, requests[0].action, requests[0].today).after, requests[1..])
  }

  /**
   * From `before` to `after`, no token disappears, none changes its maximum supply, issuer or
   * symbol, and none burned less or was claimed fewer times.
   */
  predicate StatsGrow(before: Ledger, after: Ledger)
  {
    forall c :: c in before.stats ==>
      c in after.stats
      && after.stats[c].maxSupply == before.stats[c].maxSupply
      && after.stats[c].issuer == before.stats[c].issuer
      && after.stats[c].supply.sym == before.stats[c].supply.sym
      && before.stats[c].burned.amount <= after.stats[c].burned.amount
      && before.stats[c].claims <= after.stats[c].claims
  }

  lemma StatsGrowTransitive(a: Ledger, b: Ledger, c: Ledger)
    requires StatsGrow(a, b) && StatsGrow(b, c)
    ensures StatsGrow(a, c)
  {
  }

  /** A claim only raises the supply and the claim count. */
  lemma UbiClaimGrows(ledger: Ledger, from: Name, sym: Symbol, today: TimeType, fail: bool)
    requires sym.code in ledger.stats
    ensures StatsGrow(ledger, UbiClaim(ledger, from, sym, today, fail).after)
  {
  }

  /** `transfer` changes stats rows only through the sender's claim. */
  lemma TransferGrows(ledger: Ledger, from: Name, to: Name, quantity: Asset, memo: string, today: TimeType)
    ensures StatsGrow(ledger, Transfer(ledger, from, to, quantity, memo, today).after)
  {
    var code := quantity.sym.code;
    if from != to && code in ledger.stats {
      UbiClaimGrows(ledger, from, quantity.sym, today, false);
    }
  }

  /** `create` only adds a stats row. */
  lemma CreateGrows(ledger: Ledger, issuer: Name, maximumSupply: Asset)
    ensures StatsGrow(ledger, Create(ledger, issuer, maximumSupply).after)
  {
  }

  /** Raising a supply and crediting the issuer keeps everything else of the stats rows. */
  lemma RaisedGrows(ledger: Ledger, quantity: Asset, issuer: Name)
    requires quantity.sym.code in ledger.stats
    ensures StatsGrow(ledger, AddBalance(Raised(ledger, quantity), issuer, quantity))
  {
  }

  /** `issue` raises a supply, then its transfer changes stats rows only through the issuer's claim. */
  lemma IssueGrows(ledger: Ledger, to: Name, quantity: Asset, memo: string, today: TimeType)
    ensures StatsGrow(ledger, Issue(ledger, to, quantity, memo, today).after)
  {
    var r := Issue(ledger, to, quantity, memo, today);
    if r.outcome.Ok? && to != ledger.stats[quantity.sym.code].issuer {
      var st := ledger.stats[quantity.sym.code];
      var credited := AddBalance(Raised(ledger, quantity), st.issuer, quantity);
      RaisedGrows(ledger, quantity, st.issuer);
      TransferGrows(credited, st.issuer, to, quantity, memo, today);
      StatsGrowTransitive(ledger, credited, r.after);
    }
  }

  /** `retire` and `burn` add a positive quantity to the burned total. */
  lemma RetiredGrows(ledger: Ledger, owner: Name, quantity: Asset)
    requires quantity.sym.code in ledger.stats && quantity.amount > 0
    ensures StatsGrow(ledger, Rollback(ledger, SubBalance(Retired(ledger, quantity), owner, quantity)).after)
  {
  }

  lemma RetireGrows(ledger: Ledger, quantity: Asset, memo: string)
    ensures StatsGrow(ledger, Retire(ledger, quantity, memo).after)
  {
    if Retire(ledger, quantity, memo).outcome.Ok? {
      RetiredGrows(ledger, ledger.stats[quantity.sym.code].issuer, quantity);
    }
  }

  lemma BurnGrows(ledger: Ledger, owner: Name, quantity: Asset)
    ensures StatsGrow(ledger, Burn(ledger, owner, quantity).after)
  {
    if Burn(ledger, owner, quantity).outcome.Ok? {
      RetiredGrows(ledger, owner, quantity);
    }
  }

  /** `close`, `setshare` and `resetshare` leave the stats rows alone. */
  lemma CloseGrows(ledger: Ledger, owner: Name, sym: Symbol, today: TimeType)
    ensures Close(ledger, owner, sym, today).after.stats == ledger.stats
  {
  }

  lemma SetShareGrows(ledger: Ledger, owner: Name, to: Name, percent: Percent)
    ensures SetShare(ledger, owner, to, percent).after.stats == ledger.stats
  {
  }

  /** Every action keeps the stats rows growing. */
  lemma ApplyGrows(ledger: Ledger, action: Action, today: TimeType)
    ensures StatsGrow(ledger, Apply(ledger, action, today).after)
  {
    match action
    case CreateToken(issuer, maximumSupply) => CreateGrows(ledger, issuer, maximumSupply);
    case IssueTokens(to, quantity, memo) => IssueGrows(ledger, to, quantity, memo, today);
    case RetireTokens(quantity, memo) => RetireGrows(ledger, quantity, memo);
    case TransferTokens(from, to, quantity, memo) => TransferGrows(ledger, from, to, quantity, memo, today);
    case OpenRow(owner, sym) => OpenGrows(ledger, owner, sym, today);
    case CloseRow(owner, sym) => CloseGrows(ledger, owner, sym, today);
    case ClaimOwn(owner) => OpenGrows(ledger, owner, COIN_SYMBOL, today);
    case ClaimOnBehalf(owner, _) => OpenGrows(ledger, owner, COIN_SYMBOL, today);
    case BurnTokens(owner, quantity) => BurnGrows(ledger, owner, quantity);
    case SetShareRow(owner, to, percent) => SetShareGrows(ledger, owner, to, percent);
    case ResetShares(owner) =>
  }

  /** `open` changes stats rows only through the owner's claim. */
  lemma OpenGrows(ledger: Ledger, owner: Name, sym: Symbol, today: TimeType)
    ensures StatsGrow(ledger, Open(ledger, owner, sym, today).after)
  {
    if sym.code in ledger.stats && ledger.stats[sym.code].supply.sym == sym {
      var rows := RowsOf(ledger.accounts, owner);
      var withRow := if sym.code in rows then ledger
        else ledger.(accounts := ledger.accounts[owner := rows[sym.code := Account(Asset(0, sym), 0)]]);
      UbiClaimGrows(withRow, owner, sym, today, false);
    }
  }

  /** Every action keeps the invariant. */
  lemma ApplyPreserves(ledger: Ledger, action: Action, today: TimeType)
    requires Inv(ledger)
    ensures Inv(Apply(ledger, action, today).after)
  {
    match action
    case CreateToken(issuer, maximumSupply) => CreatePreserves(ledger, issuer, maximumSupply);
    case IssueTokens(to, quantity, memo) => IssuePreserves(ledger, to, quantity, memo, today);
    case RetireTokens(quantity, memo) => RetirePreserves(ledger, quantity, memo);
    case TransferTokens(from, to, quantity, memo) => TransferPreserves(ledger, from, to, quantity, memo, today);
    case OpenRow(owner, sym) => OpenPreserves(ledger, owner, sym, today);
    case CloseRow(owner, sym) => ClosePreserves(ledger, owner, sym, today);
    case ClaimOwn(owner) => OpenPreserves(ledger, owner, COIN_SYMBOL, today);
    case ClaimOnBehalf(owner, _) => OpenPreserves(ledger, owner, COIN_SYMBOL, today);
    case BurnTokens(owner, quantity) => BurnPreserves(ledger, owner, quantity);
    case SetShareRow(owner, to, percent) => SetSharePreserves(ledger, owner, to, percent);
    case ResetShares(owner) => ResetSharePreserves(ledger, owner);
  }

  /**
   * Along any sequence of requests the invariant holds (every supply is the sum of its
   * balances and within its maximum), and the stats rows only grow.
   */
  lemma {:induction false} RunPreserves(ledger: Ledger, requests: seq<Request>)
    requires Inv(ledger)
    ensures Inv(Run(ledger, requests))
    ensures StatsGrow(ledger, Run(ledger, requests))
    decreases |requests|
  {
    if requests != [] {
      var next := Apply(ledger, requests[0].action, requests[0].today).after;
      ApplyPreserves(ledger, requests[0].action, requests[0].today);
      ApplyGrows(ledger, requests[0].action, requests[0].today);
      RunPreserves(next, requests[1..]);
      StatsGrowTransitive(ledger, next, Run(next, requests[1..]));
    }
  }
}
