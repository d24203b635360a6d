/**
 * An owner's income share table: rows `{to, percent}` keyed by `to`, which the table keeps
 * (and `try_ubi_claim` iterates) in ascending key order. `setshare` inserts, updates or
 * erases one row; a row with percent zero is never stored.
 */
module Shares {
  import opened Types

  /** Rows in strictly ascending key order: the order of the table's primary index, one row per key. */
  predicate Ascending(table: seq<Share>)
  {
    forall i, j :: 0 <= i < j < |table| ==> table[i].to < table[j].to
  }

  /** The table as a map from beneficiary to percent. */
  function AsMap(table: seq<Share>): map<Name, Percent>
  {
    if table == [] then map[] else AsMap(table[1..])[table[0].to := table[0].percent]
  }

  /** The stored percent of `to`, zero when the table has no row for it. */
  function PercentOf(table: seq<Share>, to: Name): int
  {
    var m := AsMap(table);
    if to in m then m[to] else 0
  }

  /** The sum of the percents of the first `k` rows. */
  function PercentBefore(table: seq<Share>, k: nat): int
    requires k <= |table|
  {
    if k == 0 then 0 else table[0].percent + PercentBefore(table[1..], k - 1)
  }

  /** The sum of all the percents of the table. */
  function PercentSum(table: seq<Share>): int
  {
    PercentBefore(table, |table|)
  }

  /** The running sum adds rows one at a time, in table order. */
  lemma {:induction false} PercentBeforeNext(table: seq<Share>, k: nat)
    requires k < |table|
    ensures PercentBefore(table, k + 1) == PercentBefore(table, k) + table[k].percent
  {
    if k > 0 {
      PercentBeforeNext(table[1..], k - 1);
    }
  }

  /** Percents are not negative, so the running percent only grows. */
  lemma {:induction false} PercentBeforeGrows(table: seq<Share>, j: nat, k: nat)
    requires j <= k <= |table|
    ensures PercentBefore(table, j) <= PercentBefore(table, k)
  {
    if j > 0 {
      PercentBeforeGrows(table[1..], j - 1, k - 1);
    } else if k > 0 {
      PercentBeforeGrows(table[1..], 0, k - 1);
    }
  }

  /**
   * The row edit of `setshare`: with a positive percent, the row for `to` is inserted at
   * its place in key order or its percent is replaced; with percent zero, the row is erased
   * if there is one.
   */
  function SetEntry(table: seq<Share>, to: Name, percent: Percent): seq<Share>
  {
    if table == [] then (if percent > 0 then [Share(to, percent)] else [])
    else if table[0].to == to then (if percent > 0 then [Share(to, percent)] + table[1..] else table[1..])
    else if table[0].to > to then (if percent > 0 then [Share(to, percent)] + table else table)
    else [table[0]] + SetEntry(table[1..], to, percent)
  }

  /** A key that is below the first key of an ascending table is not in it. */
  lemma {:induction false} BelowFirstIsAbsent(table: seq<Share>, to: Name)
    requires Ascending(table) && table != [] && to < table[0].to
    ensures to !in AsMap(table)
    decreases table
  {
    if table[1..] != [] {
      BelowFirstIsAbsent(table[1..], to);
    }
  }

  /** The sum of a non-empty table is its first percent plus the sum of the rest. */
  lemma PercentSumFirst(table: seq<Share>)
    requires table != []
    ensures PercentSum(table) == table[0].percent + PercentSum(table[1..])
  {
  }

  /** Every row of the edited table is above a bound that `to` and every old row are above. */
  lemma {:induction false} SetEntryAbove(table: seq<Share>, to: Name, percent: Percent, bound: int)
    requires bound < to && forall i :: 0 <= i < |table| ==> bound < table[i].to
    ensures forall i :: 0 <= i < |SetEntry(table, to, percent)| ==> bound < SetEntry(table, to, percent)[i].to
    decreases table
  {
    if table != [] && table[0].to < to {
      SetEntryAbove(table[1..], to, percent, bound);
      assert SetEntry(table, to, percent) == [table[0]] + SetEntry(table[1..], to, percent);
    }
  }

  /** The edit keeps the table in strictly ascending key order. */
  lemma {:induction false} SetEntryAscending(table: seq<Share>, to: Name, percent: Percent)
    requires Ascending(table)
    ensures Ascending(SetEntry(table, to, percent))
    decreases table
  {
    if table != [] && table[0].to < to {
      var rest := SetEntry(table[1..], to, percent);
      SetEntryAscending(table[1..], to, percent);
      SetEntryAbove(table[1..], to, percent, table[0].to);
      assert SetEntry(table, to, percent) == [table[0]] + rest;
    }
  }

  /** Seen as a map, the edit sets the entry for `to`, or removes it for percent zero, and nothing else. */
  lemma {:induction false} SetEntryMap(table: seq<Share>, to: Name, percent: Percent)
    requires Ascending(table)
    ensures AsMap(SetEntry(table, to, percent))
              == if percent > 0 then AsMap(table)[to := percent] else AsMap(table) - {to}
    decreases table
  {
    if table == [] {
    } else if table[0].to == to {
      if table[1..] != [] {
        BelowFirstIsAbsent(table[1..], to);
      }
      if percent > 0 {
        assert SetEntry(table, to, percent)[1..] == table[1..];
      } else {
        assert AsMap(table) - {to} == AsMap(table[1..]);
      }
    } else if table[0].to > to {
      BelowFirstIsAbsent(table, to);
      if percent > 0 {
        assert SetEntry(table, to, percent)[1..] == table;
      } else {
        assert AsMap(table) - {to} == AsMap(table);
      }
    } else {
      var rest := SetEntry(table[1..], to, percent);
      SetEntryMap(table[1..], to, percent);
      assert SetEntry(table, to, percent) == [table[0]] + rest;
      assert AsMap(SetEntry(table, to, percent)) == AsMap(rest)[table[0].to := table[0].percent];
    }
  }

  /** The total after the edit: the old row's percent is replaced by the new one. */
  lemma {:induction false} SetEntrySum(table: seq<Share>, to: Name, percent: Percent)
    requires Ascending(table)
    ensures PercentSum(SetEntry(table, to, percent)) == PercentSum(table) - PercentOf(table, to) + percent
    decreases table
  {
    var result := SetEntry(table, to, percent);
    if table == [] {
      if percent > 0 {
        PercentSumFirst(result);
      }
    } else {
      PercentSumFirst(table);
      if table[0].to == to {
        if table[1..] != [] {
          BelowFirstIsAbsent(table[1..], to);
        }
        if percent > 0 {
          PercentSumFirst(result);
          assert result[1..] == table[1..];
        }
      } else if table[0].to > to {
        BelowFirstIsAbsent(table, to);
        if percent > 0 {
          PercentSumFirst(result);
          assert result[1..] == table;
        }
      } else {
        SetEntrySum(table[1..], to, percent);
        PercentSumFirst(result);
        assert result[1..] == SetEntry(table[1..], to, percent);
      }
    }
  }
}
