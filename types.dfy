/** Constants, scalar types and table rows of the dailycoin token contract (dailycoin.hpp). */
module Types {

  /** An account name. eosio names are 64-bit values; the model keeps their numeric value. */
  type Name = nat

  /** The raw numeric code of a token symbol, the key of the stats and account tables. */
  type SymCode = nat

  /** `time_type` is `uint16_t`: a day number since 1970-01-01. */
  type TimeType = x: int | 0 <= x < 0x1_0000

  /** Share percentages are stored and passed as `uint8_t`. */
  type Percent = x: int | 0 <= x < 0x100

  /** A token symbol: its code and its number of decimal digits. */
  datatype Symbol = Symbol(code: SymCode, precision: nat)

  /** An amount of base units tagged with its symbol. */
  datatype Asset = Asset(amount: int, sym: Symbol)

  /** A balance row, kept in the owner's scope and keyed by `balance.sym.code`. */
  datatype Account = Account(balance: Asset, lastClaimDay: TimeType)

  /** The statistics row of one token, keyed by `supply.sym.code`. */
  datatype CurrencyStats = CurrencyStats(
    supply: Asset,
    maxSupply: Asset,
    issuer: Name,
    burned: Asset,
    claims: nat)

  /** An income share row, kept in the owner's scope and keyed by `to`. */
  datatype Share = Share(to: Name, percent: Percent)

  /** The result of an action: it commits, or a `check` fails and the transaction aborts. */
  datatype Outcome = Ok | Abort(msg: string)

  /** The result of a read that may fail. */
  datatype Result<T> = Found(value: T) | Missing(msg: string)

  /** Tokens of this contract have exactly four decimal digits. */
  const SYMBOL_PRECISION: nat := 4
  /** Base units per whole token, so one claimed day is worth this many base units. */
  const PRECISION_MULTIPLIER: int := 10000
  /** "XDL" packed into an integer, first letter in the lowest byte. */
  const COIN_CODE: SymCode := 'X' as int + 0x100 * ('D' as int) + 0x1_0000 * ('L' as int)
  const COIN_SYMBOL: Symbol := Symbol(COIN_CODE, SYMBOL_PRECISION)
  /** At most this many past days of income accumulate. */
  const MAX_PAST_CLAIM_DAYS: int := 360
  /** Day 18628 is January 1st, 2021: the end of the signup reward period. */
  const LAST_SIGNUP_REWARD_DAY: TimeType := 18628
  const SECONDS_PER_DAY: nat := 86400

  function Pow10(n: nat): (p: nat)
    ensures p >= 1
  {
    if n == 0 then 1 else 10 * Pow10(n - 1)
  }

  /** One whole token is `10^SYMBOL_PRECISION` base units. */
  lemma PrecisionMultiplierMatchesPrecision()
    ensures Pow10(SYMBOL_PRECISION) == PRECISION_MULTIPLIER
  {
  }

  /** The conversion of an integer to `uint16_t`: the value congruent to `x` modulo 2^16. */
  function ToTimeType(x: int): (t: TimeType)
    ensures (x - t) % 0x1_0000 == 0
    ensures 0 <= x < 0x1_0000 ==> t == x
  {
    x % 0x1_0000
  }

  /** C++ integer division, which truncates toward zero. */
  function CDiv(a: int, b: int): (q: int)
    requires b > 0
    ensures a >= 0 ==> q == a / b
    ensures a < 0 ==> -b < a - q * b <= 0
  {
    if a >= 0 then a / b else -((-a) / b)
  }

  /** `get_today`: whole days since the epoch, cast to `time_type`. */
  function GetToday(secondsSinceEpoch: nat): (today: TimeType)
  {
    ToTimeType(secondsSinceEpoch / SECONDS_PER_DAY)
  }

  /** While the clock is below 2^16 days, `get_today` is the day that contains the instant. */
  lemma GetTodayContainsInstant(secondsSinceEpoch: nat)
    requires secondsSinceEpoch < 0x1_0000 * SECONDS_PER_DAY
    ensures GetToday(secondsSinceEpoch) * SECONDS_PER_DAY <= secondsSinceEpoch
    ensures secondsSinceEpoch < (GetToday(secondsSinceEpoch) + 1) * SECONDS_PER_DAY
  {
  }

  /**
   * Past 2^16 days the cast to `time_type` wraps the day number around. The deployed clock
   * `sec_since_epoch()` is a 32-bit count of seconds, so it stops near day 49710 and never
   * reaches this wrap; the lemma states what the cast itself does.
   */
  lemma GetTodayWraps(secondsSinceEpoch: nat)
    ensures GetToday(secondsSinceEpoch + 0x1_0000 * SECONDS_PER_DAY) == GetToday(secondsSinceEpoch)
  {
    var s := secondsSinceEpoch;
    assert (s + 0x1_0000 * SECONDS_PER_DAY) / SECONDS_PER_DAY == s / SECONDS_PER_DAY + 0x1_0000;
  }
}
