/**
 * The arithmetic of `try_ubi_claim`: how many base units a claim pays, how many days of
 * income are lost, where the last claim day moves, and how the payment is split across
 * the claimer's income shares.
 */
module Claim {
  import opened Types
  import opened Shares

  /** What a claim attempt comes to. */
  datatype ClaimPlan =
    | NothingPending
      /** The last claim day is today or later. */
    | NoCoins
      /** The payment, after the max-supply clamp, is not positive. */
    | Pay(amount: int, lostDays: TimeType, newLastClaimDay: TimeType)

  /**
   * The last claim day the computation starts from. A stored zero means "never claimed":
   * after the reward period that reads as yesterday; during it, the day is pushed further
   * back by the days left until the reward deadline, at most `MAX_PAST_CLAIM_DAYS`, with the
   * `uint16_t` subtraction wrapping around.
   */
  function Baseline(lastClaimDay: TimeType, today: TimeType): TimeType
  {
    if lastClaimDay != 0 then lastClaimDay
    else if today <= LAST_SIGNUP_REWARD_DAY then
      var bonusDays := LAST_SIGNUP_REWARD_DAY - today + 1;
      ToTimeType(today - 1 - (if bonusDays > MAX_PAST_CLAIM_DAYS then MAX_PAST_CLAIM_DAYS else bonusDays))
    else ToTimeType(today - 1)
  }

  /** Days owed before today's pay: the days strictly between the baseline and today. */
  function OwedDays(lastClaimDay: TimeType, today: TimeType): int
  {
    today - Baseline(lastClaimDay, today) - 1
  }

  /** The payment before the max-supply clamp: the owed days, capped, plus today, in base units. */
  function UncappedAmount(lastClaimDay: TimeType, today: TimeType): int
  {
    var owed := OwedDays(lastClaimDay, today);
    ((if owed > MAX_PAST_CLAIM_DAYS then MAX_PAST_CLAIM_DAYS else owed) + 1) * PRECISION_MULTIPLIER
  }

  /** The claim computation of `try_ubi_claim`, from the stored last claim day to the new one. */
  function PlanClaim(lastClaimDay: TimeType, today: TimeType, supply: int, maxSupply: int): (r: ClaimPlan)
    ensures r.NothingPending? <==> lastClaimDay >= today
    ensures r.Pay? ==> 0 < r.amount <= maxSupply - supply
    ensures r.Pay? ==> r.amount <= (MAX_PAST_CLAIM_DAYS + 1) * PRECISION_MULTIPLIER
    ensures r.Pay? ==> r.newLastClaimDay <= today
    ensures r.Pay? ==> r.newLastClaimDay
                         == Baseline(lastClaimDay, today) + r.lostDays + r.amount / PRECISION_MULTIPLIER
    ensures lastClaimDay < today ==>
              var uncapped := UncappedAmount(lastClaimDay, today);
              var cut := if uncapped > maxSupply - supply then maxSupply - supply else uncapped;
              (r.NoCoins? <==> cut <= 0) && (r.Pay? ==> r.amount == cut)
  {
    if lastClaimDay >= today then NothingPending
    else
      var base := Baseline(lastClaimDay, today);
      var owed := today - base - 1;
      var lost := if owed > MAX_PAST_CLAIM_DAYS then owed - MAX_PAST_CLAIM_DAYS else 0;
      var days := (if owed > MAX_PAST_CLAIM_DAYS then MAX_PAST_CLAIM_DAYS else owed) + 1;
      var available := maxSupply - supply;
      var amount := if days * PRECISION_MULTIPLIER > available then available else days * PRECISION_MULTIPLIER;
      var delta := ToTimeType(lost + CDiv(amount, PRECISION_MULTIPLIER));
      if amount <= 0 then NoCoins
      else
        assert 0 <= lost + amount / PRECISION_MULTIPLIER <= lost + days == today - base;
        Pay(amount, ToTimeType(lost), ToTimeType(base + delta))
  }

  /** Owed days above the cap are lost; the rest are paid. */
  lemma LostDaysAreTheExcess(lastClaimDay: TimeType, today: TimeType, supply: int, maxSupply: int)
    requires PlanClaim(lastClaimDay, today, supply, maxSupply).Pay?
    ensures var owed := OwedDays(lastClaimDay, today);
            PlanClaim(lastClaimDay, today, supply, maxSupply).lostDays
              == (if owed > MAX_PAST_CLAIM_DAYS then owed - MAX_PAST_CLAIM_DAYS else 0)
  {
  }

  /** After the reward period, a first claim pays exactly one token and catches up to today. */
  lemma FirstClaimAfterRewardPeriod(today: TimeType, supply: int, maxSupply: int)
    requires today > LAST_SIGNUP_REWARD_DAY
    requires supply + PRECISION_MULTIPLIER <= maxSupply
    ensures PlanClaim(0, today, supply, maxSupply) == Pay(PRECISION_MULTIPLIER, 0, today)
  {
    assert Baseline(0, today) == today - 1;
  }

  /**
   * During the reward period, a first claim also pays one token per day left until the
   * deadline, at most `MAX_PAST_CLAIM_DAYS` of them, and catches up to today. From day 361 on,
   * the pushed-back baseline does not wrap.
   */
  lemma FirstClaimDuringRewardPeriod(today: TimeType, supply: int, maxSupply: int)
    requires MAX_PAST_CLAIM_DAYS < today <= LAST_SIGNUP_REWARD_DAY
    requires var bonusDays := LAST_SIGNUP_REWARD_DAY - today + 1;
             var paidDays := (if bonusDays > MAX_PAST_CLAIM_DAYS then MAX_PAST_CLAIM_DAYS else bonusDays) + 1;
             supply + paidDays * PRECISION_MULTIPLIER <= maxSupply
    ensures var bonusDays := LAST_SIGNUP_REWARD_DAY - today + 1;
            var paidDays := (if bonusDays > MAX_PAST_CLAIM_DAYS then MAX_PAST_CLAIM_DAYS else bonusDays) + 1;
            PlanClaim(0, today, supply, maxSupply) == Pay(paidDays * PRECISION_MULTIPLIER, 0, today)
  {
    var bonusDays := LAST_SIGNUP_REWARD_DAY - today + 1;
    var capped := if bonusDays > MAX_PAST_CLAIM_DAYS then MAX_PAST_CLAIM_DAYS else bonusDays;
    assert Baseline(0, today) == today - 1 - capped;
  }

  /**
   * On the first days of 1970 the pushed-back baseline wraps around past zero, the owed
   * days come out negative and a first claim pays nothing.
   */
  lemma FirstClaimBeforeDay361PaysNothing(today: TimeType, supply: int, maxSupply: int)
    requires 1 <= today <= MAX_PAST_CLAIM_DAYS
    ensures PlanClaim(0, today, supply, maxSupply) == NoCoins
  {
    assert Baseline(0, today) == today - 1 - MAX_PAST_CLAIM_DAYS + 0x1_0000;
  }

  /**
   * A returning claimer is paid for the days since the last claim, at most
   * `MAX_PAST_CLAIM_DAYS` past days plus today; the excess days are lost, and the last claim
   * day catches up to today.
   */
  lemma ReturningClaim(lastClaimDay: TimeType, today: TimeType, supply: int, maxSupply: int)
    requires 0 < lastClaimDay < today
    requires UncappedAmount(lastClaimDay, today) <= maxSupply - supply
    ensures var owed := today - lastClaimDay - 1;
            var paidDays := (if owed > MAX_PAST_CLAIM_DAYS then MAX_PAST_CLAIM_DAYS else owed) + 1;
            var lost := if owed > MAX_PAST_CLAIM_DAYS then owed - MAX_PAST_CLAIM_DAYS else 0;
            PlanClaim(lastClaimDay, today, supply, maxSupply) == Pay(paidDays * PRECISION_MULTIPLIER, lost, today)
  {
  }

  /**
   * A payment the supply cap did not cut moves the last claim day to today, so claiming
   * again the same day, against the raised supply, finds nothing pending.
   */
  lemma SecondClaimSameDayFindsNothing(lastClaimDay: TimeType, today: TimeType, supply: int, maxSupply: int)
    requires PlanClaim(lastClaimDay, today, supply, maxSupply).Pay?
    requires UncappedAmount(lastClaimDay, today) <= maxSupply - supply
    ensures var p := PlanClaim(lastClaimDay, today, supply, maxSupply);
            p.newLastClaimDay == today
            && PlanClaim(p.newLastClaimDay, today, supply + p.amount, maxSupply) == NothingPending
  {
    var p := PlanClaim(lastClaimDay, today, supply, maxSupply);
    var owed := OwedDays(lastClaimDay, today);
    assert p.amount == UncappedAmount(lastClaimDay, today);
    assert p.amount / PRECISION_MULTIPLIER == (if owed > MAX_PAST_CLAIM_DAYS then MAX_PAST_CLAIM_DAYS else owed) + 1;
  }

  /** A claim that pays never moves the last claim day backwards past the baseline. */
  lemma PaidClaimAdvances(lastClaimDay: TimeType, today: TimeType, supply: int, maxSupply: int)
    requires lastClaimDay != 0
    requires PlanClaim(lastClaimDay, today, supply, maxSupply).Pay?
    ensures lastClaimDay <= PlanClaim(lastClaimDay, today, supply, maxSupply).newLastClaimDay <= today
  {
  }

  // ---- the share split ----

  /** A payment of `amount` base units to account `to`. */
  datatype Credit = Credit(to: Name, amount: int)

  /** The portion of a share whose running percent is below 100: its percent of the total, truncated. */
  function Portion(total: int, share: Share): int
  {
    CDiv(total * share.percent, 100)
  }

  /**
   * The loop of `try_ubi_claim` over the share table, from a point where `available` is left
   * and the percents seen so far add up to `pcsum`. A share whose running percent reaches
   * 100 takes everything left and ends the split; a split that runs out of funds ends too;
   * a split that runs out of shares credits what is left to the claimer, `owner`.
   */
  function Split(total: int, available: int, pcsum: int, shares: seq<Share>, owner: Name): seq<Credit>
    decreases |shares|
  {
    if shares == [] then [Credit(owner, available)]
    else
      var pc := pcsum + shares[0].percent;
      var amount := if pc >= 100 then available else Portion(total, shares[0]);
      var left := available - amount;
      [Credit(shares[0].to, amount)] + (if left <= 0 then [] else Split(total, left, pc, shares[1..], owner))
  }

  /** One turn of the share loop: the first share's credit, then the split of what is left. */
  lemma SplitFirst(total: int, available: int, pcsum: int, shares: seq<Share>, owner: Name)
    requires shares != []
    ensures var pc := pcsum + shares[0].percent;
            var amount := if pc >= 100 then available else Portion(total, shares[0]);
            var left := available - amount;
            Split(total, available, pcsum, shares, owner)
              == [Credit(shares[0].to, amount)] + (if left <= 0 then [] else Split(total, left, pc, shares[1..], owner))
  {
  }

  /** How a claim of `total` base units is paid out. */
  function Payout(total: int, shares: seq<Share>, owner: Name): seq<Credit>
  {
    Split(total, total, 0, shares, owner)
  }

  function CreditTotal(credits: seq<Credit>): int
  {
    if credits == [] then 0 else credits[0].amount + CreditTotal(credits[1..])
  }

  /** The sum of the portions of the first `k` shares. */
  function PortionsBefore(total: int, shares: seq<Share>, k: nat): int
    requires k <= |shares|
  {
    if k == 0 then 0 else Portion(total, shares[0]) + PortionsBefore(total, shares[1..], k - 1)
  }

  lemma MulDistributes(a: int, b: int, c: int)
    ensures a * (b - c) == a * b - a * c
  {
  }

  lemma MulPositive(a: int, b: int)
    requires a > 0 && b > 0
    ensures a * b > 0
  {
  }

  /** One share below the 100% mark leaves enough for the shares after it. */
  lemma PortionStep(total: int, available: int, pcsum: int, percent: int)
    requires total > 0 && 0 <= pcsum && 0 <= percent && pcsum + percent < 100
    requires 100 * available >= total * (100 - pcsum)
    ensures var left := available - CDiv(total * percent, 100);
            100 * left >= total * (100 - (pcsum + percent)) && left > 0
            && 0 <= CDiv(total * percent, 100)
  {
    var tp := total * percent;
    if percent > 0 {
      MulPositive(total, percent);
    }
    var d := CDiv(tp, 100);
    assert 100 * d <= tp;
    MulDistributes(total, 100 - pcsum, percent);
    assert 100 - pcsum - percent == 100 - (pcsum + percent);
    MulPositive(total, 100 - (pcsum + percent));
  }

  /**
   * While the running percent is below 100, what is left covers the remaining percents:
   * every credit is non-negative and the credits add up to exactly what was available.
   */
  lemma {:induction false} SplitConserves(total: int, available: int, pcsum: int, shares: seq<Share>, owner: Name)
    requires total > 0 && 0 <= pcsum < 100
    requires 100 * available >= total * (100 - pcsum)
    ensures var credits := Split(total, available, pcsum, shares, owner);
            CreditTotal(credits) == available
            && forall i :: 0 <= i < |credits| ==> credits[i].amount >= 0
    decreases shares
  {
    var credits := Split(total, available, pcsum, shares, owner);
    if shares != [] {
      var pc := pcsum + shares[0].percent;
      var amount := if pc >= 100 then available else Portion(total, shares[0]);
      var left := available - amount;
      if pc < 100 {
        PortionStep(total, available, pcsum, shares[0].percent);
        SplitConserves(total, left, pc, shares[1..], owner);
        assert credits == [Credit(shares[0].to, amount)] + Split(total, left, pc, shares[1..], owner);
        assert credits[1..] == Split(total, left, pc, shares[1..], owner);
      } else {
        assert credits == [Credit(shares[0].to, available)];
      }
    }
  }

  /** The payout of a positive claim conserves it: no credit is negative and they add up to the claim. */
  lemma PayoutConserves(total: int, shares: seq<Share>, owner: Name)
    requires total > 0
    ensures var credits := Payout(total, shares, owner);
            CreditTotal(credits) == total
            && forall i :: 0 <= i < |credits| ==> credits[i].amount >= 0
  {
    SplitConserves(total, total, 0, shares, owner);
  }

  /** One step of the split below the 100% mark: the share gets its portion and the split goes on. */
  lemma SplitStep(total: int, available: int, pcsum: int, shares: seq<Share>, owner: Name)
    requires total > 0 && 0 <= pcsum && shares != [] && pcsum + shares[0].percent < 100
    requires 100 * available >= total * (100 - pcsum)
    ensures var left := available - Portion(total, shares[0]);
            && 100 * left >= total * (100 - (pcsum + shares[0].percent)) && left > 0
            && Split(total, available, pcsum, shares, owner)
                 == [Credit(shares[0].to, Portion(total, shares[0]))]
                    + Split(total, left, pcsum + shares[0].percent, shares[1..], owner)
  {
    PortionStep(total, available, pcsum, shares[0].percent);
  }

  /** A share whose running percent stays below 100 is credited its portion of the total. */
  lemma {:induction false} SplitPortions(total: int, available: int, pcsum: int, shares: seq<Share>, owner: Name, i: nat)
    requires total > 0 && 0 <= pcsum < 100
    requires 100 * available >= total * (100 - pcsum)
    requires i < |shares| && pcsum + PercentBefore(shares, i + 1) < 100
    ensures var credits := Split(total, available, pcsum, shares, owner);
            i < |credits| && credits[i] == Credit(shares[i].to, Portion(total, shares[i]))
    decreases i
  {
    PercentBeforeGrows(shares, 1, i + 1);
    SplitStep(total, available, pcsum, shares, owner);
    if i > 0 {
      var left := available - Portion(total, shares[0]);
      SplitPortions(total, left, pcsum + shares[0].percent, shares[1..], owner, i - 1);
    }
  }

  /** The first share whose running percent reaches 100 takes what is left and is the last credited. */
  lemma {:induction false} SplitAbsorber(total: int, available: int, pcsum: int, shares: seq<Share>, owner: Name, i: nat)
    requires total > 0 && 0 <= pcsum < 100
    requires 100 * available >= total * (100 - pcsum)
    requires i < |shares| && pcsum + PercentBefore(shares, i) < 100 && pcsum + PercentBefore(shares, i + 1) >= 100
    ensures var credits := Split(total, available, pcsum, shares, owner);
            |credits| == i + 1 && credits[i] == Credit(shares[i].to, available - PortionsBefore(total, shares, i))
    decreases i
  {
    if i > 0 {
      PercentBeforeGrows(shares, 1, i);
      SplitStep(total, available, pcsum, shares, owner);
      var left := available - Portion(total, shares[0]);
      SplitAbsorber(total, left, pcsum + shares[0].percent, shares[1..], owner, i - 1);
    }
  }

  /** If the percents never reach 100, the claimer is credited what the portions leave, last. */
  lemma {:induction false} SplitResidue(total: int, available: int, pcsum: int, shares: seq<Share>, owner: Name)
    requires total > 0 && 0 <= pcsum < 100
    requires 100 * available >= total * (100 - pcsum)
    requires pcsum + PercentBefore(shares, |shares|) < 100
    ensures var credits := Split(total, available, pcsum, shares, owner);
            |credits| == |shares| + 1
            && credits[|shares|] == Credit(owner, available - PortionsBefore(total, shares, |shares|))
    decreases shares
  {
    if shares != [] {
      PercentBeforeGrows(shares, 1, |shares|);
      SplitStep(total, available, pcsum, shares, owner);
      var left := available - Portion(total, shares[0]);
      SplitResidue(total, left, pcsum + shares[0].percent, shares[1..], owner);
    }
  }

  /** The payout of a claim, share by share, as the comments at dailycoin.cpp:429-437 describe it. */
  lemma PayoutShape(total: int, shares: seq<Share>, owner: Name)
    requires total > 0
    ensures var credits := Payout(total, shares, owner);
            && (forall i :: 0 <= i < |shares| && PercentBefore(shares, i + 1) < 100 ==>
                  i < |credits| && credits[i] == Credit(shares[i].to, Portion(total, shares[i])))
            && (forall i :: 0 <= i < |shares| && PercentBefore(shares, i) < 100
                             && PercentBefore(shares, i + 1) >= 100 ==>
                  |credits| == i + 1
                  && credits[i] == Credit(shares[i].to, total - PortionsBefore(total, shares, i)))
            && (PercentBefore(shares, |shares|) < 100 ==>
                  |credits| == |shares| + 1
                  && credits[|shares|] == Credit(owner, total - PortionsBefore(total, shares, |shares|)))
  {
    forall i | 0 <= i < |shares| && PercentBefore(shares, i + 1) < 100
      ensures var credits := Payout(total, shares, owner);
              i < |credits| && credits[i] == Credit(shares[i].to, Portion(total, shares[i]))
    {
      SplitPortions(total, total, 0, shares, owner, i);
    }
    forall i | 0 <= i < |shares| && PercentBefore(shares, i) < 100 && PercentBefore(shares, i + 1) >= 100
      ensures var credits := Payout(total, shares, owner);
              |credits| == i + 1 && credits[i] == Credit(shares[i].to, total - PortionsBefore(total, shares, i))
    {
      SplitAbsorber(total, total, 0, shares, owner, i);
    }
    if PercentBefore(shares, |shares|) < 100 {
      SplitResidue(total, total, 0, shares, owner);
    }
  }
}
