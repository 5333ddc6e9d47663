/** The total ratio in USD, computed from daily totals instead of single transactions. */
module UsdRatio {
  import opened Wrappers
  import opened Sums
  import opened RealSums
  import opened Ledger
  import opened Analytics
  import opened Rates
  import opened RateSync
  import opened Conversion

  /** One row of the daily totals: a currency name, a day, and the cents of that day. */
  datatype DayTotal = DayTotal(key: Key, cents: int)

  // ------------------------------------------------------------------
  // Grouping rows of any table by currency and day
  // ------------------------------------------------------------------

  /** The cents of a row that belongs to this group; a row the filters reject has no key. */
  function CentsAt<V>(keyOf: V -> Option<Key>, cents: V -> int, key: Key): V -> int {
    row => if keyOf(row) == Some(key) then cents(row) else 0
  }

  function UsdAt<V>(keyOf: V -> Option<Key>, cents: V -> int, key: Key, lookup: Lookup): V -> real {
    row => if keyOf(row) == Some(key) then ConvertToUsd(key.cc, key.date, cents(row), lookup) else 0.0
  }

  /** Every single row converted by itself, for the keys listed so far. */
  function UsdIn<V>(keyOf: V -> Option<Key>, cents: V -> int, keys: set<Key>, lookup: Lookup): V -> real {
    row => match keyOf(row)
           case None => 0.0
           case Some(key) => if key in keys then ConvertToUsd(key.cc, key.date, cents(row), lookup) else 0.0
  }

  function UsdOf<V>(keyOf: V -> Option<Key>, cents: V -> int, lookup: Lookup): V -> real {
    row => match keyOf(row)
           case None => 0.0
           case Some(key) => ConvertToUsd(key.cc, key.date, cents(row), lookup)
  }

  /** `GROUP BY name, timestamp` with SUM: each group once, and no row outside the groups. */
  ghost predicate AreDayTotals<V>(m: map<int, V>, keyOf: V -> Option<Key>, cents: V -> int, rows: seq<DayTotal>) {
    && (forall i, k :: 0 <= i < k < |rows| ==> rows[i].key != rows[k].key)
    && (forall i :: 0 <= i < |rows| ==> rows[i].cents == Sum(m, CentsAt(keyOf, cents, rows[i].key)))
    && (forall id :: id in m && keyOf(m[id]).Some? ==> exists i :: 0 <= i < |rows| && rows[i].key == keyOf(m[id]).value)
  }

  function Keys(rows: seq<DayTotal>): (keys: set<Key>)
    ensures forall key :: key in keys <==> exists i :: 0 <= i < |rows| && rows[i].key == key
  {
    if rows == [] then {} else Keys(rows[..|rows| - 1]) + {rows[|rows| - 1].key}
  }

  function DaysInUsd(rows: seq<DayTotal>, lookup: Lookup): real {
    if rows == [] then 0.0
    else
      var last := rows[|rows| - 1];
      DaysInUsd(rows[..|rows| - 1], lookup) + ConvertToUsd(last.key.cc, last.key.date, last.cents, lookup)
  }

  function InUsd(key: Key, lookup: Lookup): int -> real {
    cents => ConvertToUsd(key.cc, key.date, cents, lookup)
  }

  lemma InUsdAdds(key: Key, lookup: Lookup, x: int, y: int)
    ensures Adds(InUsd(key, lookup), x, y)
  {
    ConvertIsLinear(key.cc, key.date, x, lookup);
    ConvertIsLinear(key.cc, key.date, y, lookup);
    ConvertIsLinear(key.cc, key.date, x + y, lookup);
  }

  lemma NothingInUsd(key: Key, lookup: Lookup)
    ensures InUsd(key, lookup)(0) == 0.0
  {
    InUsdAdds(key, lookup, 0, 0);
  }

  /** One group: converting its total is converting each of its rows. */
  lemma GroupInUsd<V>(m: map<int, V>, keyOf: V -> Option<Key>, cents: V -> int, key: Key, lookup: Lookup)
    ensures RealSum(m, UsdAt(keyOf, cents, key, lookup)) ==
            ConvertToUsd(key.cc, key.date, Sum(m, CentsAt(keyOf, cents, key)), lookup)
  {
    var f, g, scale := CentsAt(keyOf, cents, key), UsdAt(keyOf, cents, key, lookup), InUsd(key, lookup);
    forall x, y ensures Adds(scale, x, y) {
      InUsdAdds(key, lookup, x, y);
    }
    NothingInUsd(key, lookup);
    forall id | id in m ensures g(m[id]) == scale(f(m[id])) {
    }
    RealSumScale(m, f, g, scale);
  }

  lemma {:induction false} GroupsInUsd<V>(m: map<int, V>, keyOf: V -> Option<Key>, cents: V -> int, rows: seq<DayTotal>, lookup: Lookup)
    requires forall i, k :: 0 <= i < k < |rows| ==> rows[i].key != rows[k].key
    requires forall i :: 0 <= i < |rows| ==> rows[i].cents == Sum(m, CentsAt(keyOf, cents, rows[i].key))
    ensures DaysInUsd(rows, lookup) == RealSum(m, UsdIn(keyOf, cents, Keys(rows), lookup))
    decreases |rows|
  {
    if rows == [] {
      var h := UsdIn(keyOf, cents, {}, lookup);
      RealSumSplit(m, h, h, h);
    } else {
      var front, key := rows[..|rows| - 1], rows[|rows| - 1].key;
      GroupsInUsd(m, keyOf, cents, front, lookup);
      GroupInUsd(m, keyOf, cents, key, lookup);
      var h, f, g := UsdIn(keyOf, cents, Keys(rows), lookup), UsdIn(keyOf, cents, Keys(front), lookup), UsdAt(keyOf, cents, key, lookup);
      assert key !in Keys(front);
      forall id | id in m ensures h(m[id]) == f(m[id]) + g(m[id]) {
      }
      RealSumSplit(m, h, f, g);
    }
  }

  /** Pushing the aggregation into the database changes nothing: totals convert like their rows. */
  lemma PushDown<V>(m: map<int, V>, keyOf: V -> Option<Key>, cents: V -> int, rows: seq<DayTotal>, lookup: Lookup)
    requires AreDayTotals(m, keyOf, cents, rows)
    ensures DaysInUsd(rows, lookup) == RealSum(m, UsdOf(keyOf, cents, lookup))
  {
    GroupsInUsd(m, keyOf, cents, rows, lookup);
    var f, g := UsdIn(keyOf, cents, Keys(rows), lookup), UsdOf(keyOf, cents, lookup);
    var zero: V -> real := row => 0.0;
    forall id | id in m ensures g(m[id]) == f(m[id]) + zero(m[id]) {
    }
    RealSumSplit(m, g, f, zero);
    RealSumSplit(m, zero, zero, zero);
  }

  // ------------------------------------------------------------------
  // Costs and incomes
  // ------------------------------------------------------------------

  function NameOf(names: map<int, string>, c: int): string {
    if c in names then names[c] else ""
  }

  function CostKey(f: Filter, names: map<int, string>): Cost -> Option<Key> {
    row => if CostPasses(f, row) then Some(Key(NameOf(names, row.currency), row.date)) else None
  }

  function CostCents(): Cost -> int { (row: Cost) => row.value }

  function IncomeKey(f: Filter, names: map<int, string>): Income -> Option<Key> {
    row => if IncomePasses(f, row) then Some(Key(NameOf(names, row.currency), row.date)) else None
  }

  function IncomeCents(): Income -> int { (row: Income) => row.value }

  /** costs / incomes * 100; no costs count as 0, costs without incomes as 100 */
  function Ratio(costs: real, incomes: real): real {
    if incomes != 0.0 && costs != 0.0 then costs / incomes * 100.0
    else if costs == 0.0 then 0.0
    else 100.0
  }

  method SumInUsd(rows: seq<DayTotal>, lookup: Lookup) returns (total: real)
    ensures total == DaysInUsd(rows, lookup)
  {
    total := 0.0;
    for i := 0 to |rows|
      invariant total == DaysInUsd(rows[..i], lookup)
    {
      assert rows[..i + 1][..i] == rows[..i];
      total := total + ConvertToUsd(rows[i].key.cc, rows[i].key.date, rows[i].cents, lookup);
    }
    assert rows[..|rows|] == rows;
  }

  /** The share of incomes that was spent, in percent, with its two special cases. */
  predicate IsRatio(costs: real, incomes: real, ratio: real) {
    && (costs == 0.0 ==> ratio == 0.0)
    && (costs != 0.0 && incomes == 0.0 ==> ratio == 100.0)
    && (costs != 0.0 && incomes != 0.0 ==> ratio * incomes == costs * 100.0)
  }

  lemma RatioMeans(costs: real, incomes: real)
    ensures IsRatio(costs, incomes, Ratio(costs, incomes))
  {
    if costs != 0.0 && incomes != 0.0 {
      var q := costs / incomes;
      assert q * incomes == costs;
      assert q * 100.0 * incomes == q * incomes * 100.0;
    }
  }

  /** A single cost counts by its own columns: currency name, day and value. */
  lemma CostInUsd(f: Filter, names: map<int, string>, row: Cost, lookup: Lookup)
    requires row.currency in names
    ensures UsdOf(CostKey(f, names), CostCents(), lookup)(row) ==
            if CostPasses(f, row) then ConvertToUsd(names[row.currency], row.date, row.value, lookup) else 0.0
  {
  }

  lemma IncomeInUsd(f: Filter, names: map<int, string>, row: Income, lookup: Lookup)
    requires row.currency in names
    ensures UsdOf(IncomeKey(f, names), IncomeCents(), lookup)(row) ==
            if IncomePasses(f, row) then ConvertToUsd(names[row.currency], row.date, row.value, lookup) else 0.0
  {
  }

  /**
   `compute_total_ratio_usd`, once the rates are loaded: the ratio of what all
   single costs and all single incomes of the range are worth in USD.
   */
  method TotalRatioUsd(ghost t: Tables, ghost f: Filter, ghost names: map<int, string>,
                       costs: seq<DayTotal>, incomes: seq<DayTotal>, lookup: Lookup) returns (ratio: real)
    requires AreDayTotals(t.costs, CostKey(f, names), CostCents(), costs)
    requires AreDayTotals(t.incomes, IncomeKey(f, names), IncomeCents(), incomes)
    ensures ratio == Ratio(RealSum(t.costs, UsdOf(CostKey(f, names), CostCents(), lookup)),
                           RealSum(t.incomes, UsdOf(IncomeKey(f, names), IncomeCents(), lookup)))
    ensures IsRatio(RealSum(t.costs, UsdOf(CostKey(f, names), CostCents(), lookup)),
                    RealSum(t.incomes, UsdOf(IncomeKey(f, names), IncomeCents(), lookup)), ratio)
  {
    PushDown(t.costs, CostKey(f, names), CostCents(), costs, lookup);
    PushDown(t.incomes, IncomeKey(f, names), IncomeCents(), incomes, lookup);
    var spent := SumInUsd(costs, lookup);
    var earned := SumInUsd(incomes, lookup);
    RatioMeans(spent, earned);
    if earned != 0.0 && spent != 0.0 {
      ratio := spent / earned * 100.0;
    } else if spent == 0.0 {
      ratio := 0.0;
    } else {
      ratio := 100.0;
    }
  }

  // ------------------------------------------------------------------
  // Synchronise, load, convert
  // ------------------------------------------------------------------

  function InsertByDate(rates: seq<Rate>, row: Rate): seq<Rate> {
    if rates == [] || rates[|rates| - 1].date <= row.date then rates + [row]
    else InsertByDate(rates[..|rates| - 1], row) + [rates[|rates| - 1]]
  }

  /** `get_rates` */
  function RatesBetween(rows: seq<Rate>, first: int, last: int): seq<Rate> {
    if rows == [] then []
    else
      var rest, row := RatesBetween(rows[..|rows| - 1], first, last), rows[|rows| - 1];
      if first <= row.date <= last then InsertByDate(rest, row) else rest
  }

  /** Ordered by date, and no key twice. */
  predicate InOrder(rates: seq<Rate>) {
    forall i, k :: 0 <= i < k < |rates| ==> rates[i].date <= rates[k].date && !SameKey(rates[i], rates[k])
  }

  lemma Prefix(front: seq<Rate>, back: Rate)
    requires InOrder(front + [back])
    ensures InOrder(front)
  {
    forall i, k | 0 <= i < k < |front| ensures front[i].date <= front[k].date && !SameKey(front[i], front[k]) {
      assert (front + [back])[i] == front[i] && (front + [back])[k] == front[k];
    }
  }

  lemma NotLater(front: seq<Rate>, back: Rate, r: Rate)
    requires InOrder(front + [back]) && r in front
    ensures r.date <= back.date && !SameKey(r, back)
  {
    var k :| 0 <= k < |front| && front[k] == r;
    assert (front + [back])[k] == r && (front + [back])[|front|] == back;
  }

  lemma Snoc(init: seq<Rate>, back: Rate)
    requires InOrder(init) && forall r :: r in init ==> r.date <= back.date && !SameKey(r, back)
    ensures InOrder(init + [back])
  {
    var all := init + [back];
    forall i, k | 0 <= i < k < |all| ensures all[i].date <= all[k].date && !SameKey(all[i], all[k]) {
      assert all[i] == init[i] && all[i] in init;
    }
  }

  lemma {:induction false} InsertedInOrder(rates: seq<Rate>, row: Rate)
    requires InOrder(rates) && forall r :: r in rates ==> !SameKey(r, row)
    ensures InOrder(InsertByDate(rates, row))
    ensures forall r :: r in InsertByDate(rates, row) <==> r in rates || r == row
    decreases |rates|
  {
    if rates != [] {
      var front, back := rates[..|rates| - 1], rates[|rates| - 1];
      assert rates == front + [back];
      forall r | r in front ensures r.date <= back.date && !SameKey(r, back) {
        NotLater(front, back, r);
      }
      if back.date <= row.date {
        Snoc(rates, row);
      } else {
        Prefix(front, back);
        InsertedInOrder(front, row);
        Snoc(InsertByDate(front, row), back);
      }
    }
  }

  /** A row of a table with distinct keys has another key than the rows before it. */
  lemma NewKey(front: seq<Rate>, row: Rate, r: Rate)
    requires Unique(front + [row]) && r in front
    ensures !SameKey(r, row)
  {
    var k :| 0 <= k < |front| && front[k] == r;
    assert (front + [row])[k] == r && (front + [row])[|front|] == row;
  }

  lemma {:induction false} RatesBetweenAre(rows: seq<Rate>, first: int, last: int)
    requires Unique(rows)
    ensures AreRatesBetween(rows, first, last, RatesBetween(rows, first, last))
    decreases |rows|
  {
    if rows != [] {
      var front, row := rows[..|rows| - 1], rows[|rows| - 1];
      assert rows == front + [row];
      RatesBetweenAre(front, first, last);
      var rest := RatesBetween(front, first, last);
      forall r | r in rest ensures !SameKey(r, row) {
        NewKey(front, row, r);
      }
      InsertedInOrder(rest, row);
    }
  }

  /**
   After a synchronisation, an amount on a day of the range in UAH, or in a
   currency that has any rate, is converted with that day's rates, never with
   a fallback; USD must have a rate too. An amount in USD is taken as it is.
   */
  lemma ConvertedAfterSync(tables: seq<seq<Rate>>, names: seq<string>, first: int, last: int, fetch: Fetcher,
                           lookup: Lookup, c: nat, u: nat, date: int, cents: int)
    requires Synced(tables, names, first, last, fetch) && Distinct(names) && c < |names| && u < |names|
    requires names[u] == "USD" && first <= date <= last
    requires var rows := tables[|names|];
             && Unique(rows) && AllFromUah(rows) && HasAny(rows, "USD") && (names[c] == "UAH" || HasAny(rows, names[c]))
             && |lookup| == |RatesBetween(rows, first, last)|
             && forall i :: 0 <= i < |lookup| ==> lookup[i] == EntryOf(RatesBetween(rows, first, last)[i])
    ensures names[c] == "USD" ==> ConvertToUsd(names[c], date, cents, lookup) == cents as real
    ensures var rows := tables[|names|];
            names[c] != "USD" ==>
              exists rate, usd :: DayRate(rows, names[c], date, rate) && DayRate(rows, "USD", date, usd) &&
                ConvertToUsd(names[c], date, cents, lookup) == Quote(cents, rate, usd)
  {
    var rows := tables[|names|];
    SyncCompletes(tables, names, first, last, fetch, u);
    if names[c] != "UAH" {
      SyncCompletes(tables, names, first, last, fetch, c);
    }
    RatesBetweenAre(rows, first, last);
    ConvertedOnItsOwnDay(rows, first, last, RatesBetween(rows, first, last), lookup, names[c], date, cents);
  }
}
