/**
 Basic analytics: what the aggregate queries return, how the results dictionary
 is filled from them, and why the figures agree with the stored equity.
 */
module Analytics {
  import opened Wrappers
  import opened Sums
  import opened Ledger

  /** A date range, and a name pattern (as the set of names it matches). */
  datatype Filter = Filter(dates: Option<(int, int)>, matches: Option<string -> bool>)

  datatype CategoryShare = CategoryShare(category: int, total: int, ratio: real)
  datatype SourceTotal = SourceTotal(source: string, total: int)
  datatype Report = Report(costs: int, categories: seq<CategoryShare>, incomes: int, sources: seq<SourceTotal>, fromExchanges: int)

  datatype AnalyticsError = NoFilter | ZeroDivision

  /** Rows of the aggregate queries. */
  datatype Total = Total(currency: int, total: int)
  datatype CategoryTotal = CategoryTotal(currency: int, category: int, total: int)
  datatype SourceRow = SourceRow(currency: int, source: string, total: int)

  datatype Answers = Answers(
    currencies: seq<int>,
    costs: seq<Total>,
    categories: seq<CategoryTotal>,
    incomes: seq<Total>,
    sources: seq<SourceRow>,
    exchanges: seq<int>)

  // ------------------------------------------------------------------
  // The filters and the queries
  // ------------------------------------------------------------------

  predicate InDates(f: Filter, date: int) {
    f.dates.Some? ==> f.dates.value.0 <= date <= f.dates.value.1
  }

  predicate Named(f: Filter, name: string) {
    f.matches.Some? ==> f.matches.value(name)
  }

  predicate CostPasses(f: Filter, row: Cost) { InDates(f, row.date) && Named(f, row.name) }
  predicate IncomePasses(f: Filter, row: Income) { InDates(f, row.date) && Named(f, row.name) }
  /** A pattern excludes every exchange. */
  predicate ExchangePasses(f: Filter, row: Exchange) { InDates(f, row.date) && f.matches.None? }

  function CostIn(f: Filter, c: int): Cost -> int {
    row => if CostPasses(f, row) && row.currency == c then row.value else 0
  }

  function CostInCategory(f: Filter, c: int, category: int): Cost -> int {
    row => if CostPasses(f, row) && row.currency == c && row.category == category then row.value else 0
  }

  function IncomeIn(f: Filter, c: int): Income -> int {
    row => if IncomePasses(f, row) && row.currency == c then row.value else 0
  }

  function IncomeFromSource(f: Filter, c: int, source: string): Income -> int {
    row => if IncomePasses(f, row) && row.currency == c && row.source == source then row.value else 0
  }

  function ExchangeIn(f: Filter, c: int): Exchange -> int {
    row => if ExchangePasses(f, row) then ExchangeEffect(row, c) else 0
  }

  ghost predicate HasCost(t: Tables, f: Filter, c: int) {
    exists id :: id in t.costs && CostPasses(f, t.costs[id]) && t.costs[id].currency == c
  }

  ghost predicate HasCostIn(t: Tables, f: Filter, c: int, category: int) {
    exists id :: id in t.costs && CostPasses(f, t.costs[id]) && t.costs[id].currency == c && t.costs[id].category == category
  }

  ghost predicate HasIncome(t: Tables, f: Filter, c: int) {
    exists id :: id in t.incomes && IncomePasses(f, t.incomes[id]) && t.incomes[id].currency == c
  }

  ghost predicate HasIncomeFrom(t: Tables, f: Filter, c: int, source: string) {
    exists id :: id in t.incomes && IncomePasses(f, t.incomes[id]) && t.incomes[id].currency == c && t.incomes[id].source == source
  }

  /** SUM per currency: one row for each currency that has any row. */
  ghost predicate AreCostTotals(t: Tables, f: Filter, rows: seq<Total>) {
    && (forall i, k :: 0 <= i < k < |rows| ==> rows[i].currency < rows[k].currency)
    && (forall i :: 0 <= i < |rows| ==>
          HasCost(t, f, rows[i].currency) && rows[i].total == Sum(t.costs, CostIn(f, rows[i].currency)))
    && (forall c :: HasCost(t, f, c) ==> exists i :: 0 <= i < |rows| && rows[i].currency == c)
  }

  ghost predicate AreIncomeTotals(t: Tables, f: Filter, rows: seq<Total>) {
    && (forall i, k :: 0 <= i < k < |rows| ==> rows[i].currency < rows[k].currency)
    && (forall i :: 0 <= i < |rows| ==>
          HasIncome(t, f, rows[i].currency) && rows[i].total == Sum(t.incomes, IncomeIn(f, rows[i].currency)))
    && (forall c :: HasIncome(t, f, c) ==> exists i :: 0 <= i < |rows| && rows[i].currency == c)
  }

  /** SUM per currency and category, ordered by currency and then by category. */
  ghost predicate AreCategoryTotals(t: Tables, f: Filter, rows: seq<CategoryTotal>) {
    && (forall i, k :: 0 <= i < k < |rows| ==>
          rows[i].currency < rows[k].currency || (rows[i].currency == rows[k].currency && rows[i].category < rows[k].category))
    && (forall i :: 0 <= i < |rows| ==>
          && HasCostIn(t, f, rows[i].currency, rows[i].category)
          && rows[i].total == Sum(t.costs, CostInCategory(f, rows[i].currency, rows[i].category)))
    && (forall c, g :: HasCostIn(t, f, c, g) ==> exists i :: 0 <= i < |rows| && rows[i].currency == c && rows[i].category == g)
  }

  /** SUM per currency and source; sources of one currency are distinct. */
  ghost predicate AreSourceTotals(t: Tables, f: Filter, rows: seq<SourceRow>) {
    && (forall i, k :: 0 <= i < k < |rows| ==> rows[i].currency != rows[k].currency || rows[i].source != rows[k].source)
    && (forall i :: 0 <= i < |rows| ==>
          && HasIncomeFrom(t, f, rows[i].currency, rows[i].source)
          && rows[i].total == Sum(t.incomes, IncomeFromSource(f, rows[i].currency, rows[i].source)))
    && (forall c, g :: HasIncomeFrom(t, f, c, g) ==> exists i :: 0 <= i < |rows| && rows[i].currency == c && rows[i].source == g)
  }

  ghost predicate AreExchanges(t: Tables, f: Filter, ids: seq<int>) {
    && (forall i, k :: 0 <= i < k < |ids| ==> ids[i] != ids[k])
    && (forall i :: 0 <= i < |ids| ==> ids[i] in t.exchanges && ExchangePasses(f, t.exchanges[ids[i]]))
    && (forall id :: id in t.exchanges && ExchangePasses(f, t.exchanges[id]) ==> id in ids)
  }

  /** What the database answers to the six queries, over one state of the tables. */
  ghost predicate AreAnswers(t: Tables, f: Filter, a: Answers) {
    && (forall c :: c in a.currencies <==> c in t.equity)
    && AreCostTotals(t, f, a.costs) && AreCategoryTotals(t, f, a.categories)
    && AreIncomeTotals(t, f, a.incomes) && AreSourceTotals(t, f, a.sources)
    && AreExchanges(t, f, a.exchanges)
  }

  // ------------------------------------------------------------------
  // Filling the results
  // ------------------------------------------------------------------

  const EmptyReport := Report(0, [], 0, [], 0)

  function TotalOf(rows: seq<Total>, c: int, default: int): int {
    if rows == [] then default
    else if rows[|rows| - 1].currency == c then rows[|rows| - 1].total
    else TotalOf(rows[..|rows| - 1], c, default)
  }

  function SharesOf(rows: seq<CategoryTotal>, c: int, total: int): seq<CategoryShare>
    requires total != 0
  {
    if rows == [] then []
    else
      var last := rows[|rows| - 1];
      SharesOf(rows[..|rows| - 1], c, total) +
      if last.currency == c
      then [CategoryShare(last.category, last.total, last.total as real / total as real * 100.0)]
      else []
  }

  function SourcesOf(rows: seq<SourceRow>, c: int): seq<SourceTotal> {
    if rows == [] then []
    else
      var last := rows[|rows| - 1];
      SourcesOf(rows[..|rows| - 1], c) + if last.currency == c then [SourceTotal(last.source, last.total)] else []
  }

  function ExchangesOf(rows: map<int, Exchange>, ids: seq<int>, c: int): int
    requires forall i :: 0 <= i < |ids| ==> ids[i] in rows
  {
    if ids == [] then 0
    else ExchangesOf(rows, ids[..|ids| - 1], c) + ExchangeEffect(rows[ids[|ids| - 1]], c)
  }

  /** `results[currency_id].costs.total = total`, and the same for incomes. */
  method FillTotals(results: map<int, Report>, costs: seq<Total>, incomes: seq<Total>) returns (filled: map<int, Report>)
    requires forall i :: 0 <= i < |costs| ==> costs[i].currency in results
    requires forall i :: 0 <= i < |incomes| ==> incomes[i].currency in results
    ensures filled.Keys == results.Keys
    ensures forall c :: c in results ==>
              filled[c] == results[c].(costs := TotalOf(costs, c, results[c].costs), incomes := TotalOf(incomes, c, results[c].incomes))
  {
    filled := results;
    for i := 0 to |costs|
      invariant filled.Keys == results.Keys
      invariant forall c :: c in results ==> filled[c] == results[c].(costs := TotalOf(costs[..i], c, results[c].costs))
    {
      assert costs[..i + 1][..i] == costs[..i];
      filled := filled[costs[i].currency := filled[costs[i].currency].(costs := costs[i].total)];
    }
    assert costs[..|costs|] == costs;
    ghost var half := filled;
    for i := 0 to |incomes|
      invariant filled.Keys == results.Keys
      invariant forall c :: c in results ==> filled[c] == half[c].(incomes := TotalOf(incomes[..i], c, results[c].incomes))
    {
      assert incomes[..i + 1][..i] == incomes[..i];
      filled := filled[incomes[i].currency := filled[incomes[i].currency].(incomes := incomes[i].total)];
    }
    assert incomes[..|incomes|] == incomes;
  }

  /** A group is a stretch of rows of one currency. */
  lemma {:induction false} GroupShares(rows: seq<CategoryTotal>, i: nat, j: nat, c: int, total: int)
    requires i <= j <= |rows| && total != 0
    requires forall k :: i <= k < j ==> rows[k].currency == rows[i].currency
    ensures i < j && rows[i].currency != c ==> SharesOf(rows[..j], c, total) == SharesOf(rows[..i], c, total)
    ensures i < j && rows[i].currency == c ==> SharesOf(rows[..j], c, total) == SharesOf(rows[..i], c, total) + SharesOf(rows[i..j], c, total)
    decreases j
  {
    if i < j {
      assert rows[..j][..j - 1] == rows[..j - 1];
      if i < j - 1 {
        GroupShares(rows, i, j - 1, c, total);
        assert rows[i..j][..j - 1 - i] == rows[i..j - 1];
      } else {
        assert rows[i..j] == [rows[i]];
      }
    }
  }

  /** The shares of the group that starts at i, and where the group ends. */
  method TakeGroup(rows: seq<CategoryTotal>, i: nat, total: int) returns (j: nat, items: seq<CategoryShare>)
    requires i < |rows| && total != 0
    ensures i < j <= |rows| && forall k :: i <= k < j ==> rows[k].currency == rows[i].currency
    ensures items == SharesOf(rows[i..j], rows[i].currency, total)
  {
    j, items := i, [];
    while j < |rows| && rows[j].currency == rows[i].currency
      invariant i <= j <= |rows|
      invariant forall k :: i <= k < j ==> rows[k].currency == rows[i].currency
      invariant items == SharesOf(rows[i..j], rows[i].currency, total)
    {
      assert rows[i..j + 1][..j - i] == rows[i..j];
      items := items + [CategoryShare(rows[j].category, rows[j].total, rows[j].total as real / total as real * 100.0)];
      j := j + 1;
    }
  }

  ghost predicate CategoriesFilled(before: map<int, Report>, after: map<int, Report>, rows: seq<CategoryTotal>) {
    && after.Keys == before.Keys
    && (forall c :: c in before ==>
          if before[c].costs == 0 then after[c] == before[c]
          else after[c] == before[c].(categories := SharesOf(rows, c, before[c].costs)))
  }

  /** The grouped merge of category rows; a group whose currency total is zero cannot be divided. */
  method FillCategories(results: map<int, Report>, rows: seq<CategoryTotal>) returns (r: Result<map<int, Report>, AnalyticsError>)
    requires forall i :: 0 <= i < |rows| ==> rows[i].currency in results
    requires forall c :: c in results ==> results[c].categories == []
    ensures r.Failure? <==> exists i :: 0 <= i < |rows| && results[rows[i].currency].costs == 0
    ensures r.Failure? ==> r.error == ZeroDivision
    ensures r.Success? ==> CategoriesFilled(results, r.value, rows)
  {
    var filled := results;
    var i := 0;
    while i < |rows|
      invariant i <= |rows|
      invariant forall k :: 0 <= k < i ==> results[rows[k].currency].costs != 0
      invariant CategoriesFilled(results, filled, rows[..i])
    {
      var key := rows[i].currency;
      var total := filled[key].costs;
      if total == 0 {
        return Failure(ZeroDivision);
      }
      var j, items := TakeGroup(rows, i, total);
      forall c | c in results && results[c].costs != 0
        ensures SharesOf(rows[..j], c, results[c].costs) ==
                SharesOf(rows[..i], c, results[c].costs) + if c == key then items else []
      {
        GroupShares(rows, i, j, c, results[c].costs);
      }
      filled := filled[key := filled[key].(categories := filled[key].categories + items)];
      i := j;
    }
    assert rows[..|rows|] == rows;
    r := Success(filled);
  }

  method FillSources(results: map<int, Report>, rows: seq<SourceRow>) returns (filled: map<int, Report>)
    requires forall i :: 0 <= i < |rows| ==> rows[i].currency in results
    requires forall c :: c in results ==> results[c].sources == []
    ensures filled.Keys == results.Keys
    ensures forall c :: c in results ==> filled[c] == results[c].(sources := SourcesOf(rows, c))
  {
    filled := results;
    for i := 0 to |rows|
      invariant filled.Keys == results.Keys
      invariant forall c :: c in results ==> filled[c] == results[c].(sources := SourcesOf(rows[..i], c))
    {
      assert rows[..i + 1][..i] == rows[..i];
      var c := rows[i].currency;
      filled := filled[c := filled[c].(sources := filled[c].sources + [SourceTotal(rows[i].source, rows[i].total)])];
    }
    assert rows[..|rows|] == rows;
  }

  method FillExchanges(results: map<int, Report>, rows: map<int, Exchange>, ids: seq<int>) returns (filled: map<int, Report>)
    requires forall i :: 0 <= i < |ids| ==> ids[i] in rows && rows[ids[i]].fromCurrency in results && rows[ids[i]].toCurrency in results
    ensures filled.Keys == results.Keys
    ensures forall c :: c in results ==> filled[c] == results[c].(fromExchanges := results[c].fromExchanges + ExchangesOf(rows, ids, c))
  {
    filled := results;
    for i := 0 to |ids|
      invariant filled.Keys == results.Keys
      invariant forall c :: c in results ==>
                  filled[c] == results[c].(fromExchanges := results[c].fromExchanges + ExchangesOf(rows, ids[..i], c))
    {
      assert ids[..i + 1][..i] == ids[..i];
      var item := rows[ids[i]];
      filled := filled[item.fromCurrency := filled[item.fromCurrency].(fromExchanges := filled[item.fromCurrency].fromExchanges - item.fromValue)];
      filled := filled[item.toCurrency := filled[item.toCurrency].(fromExchanges := filled[item.toCurrency].fromExchanges + item.toValue)];
    }
    assert ids[..|ids|] == ids;
  }

  /** An empty report for each currency, then the totals. */
  method StartResults(ghost t: Tables, ghost f: Filter, a: Answers) returns (results: map<int, Report>)
    requires ForeignKeys(t) && AreAnswers(t, f, a)
    ensures results.Keys == t.equity.Keys
    ensures forall c :: c in results ==>
              results[c] == Report(Sum(t.costs, CostIn(f, c)), [], Sum(t.incomes, IncomeIn(f, c)), [], 0)
  {
    RowsHaveCurrencies(t, f, a);
    results := map c | c in a.currencies :: EmptyReport;
    assert forall c :: c in results.Keys <==> c in t.equity.Keys;
    results := FillTotals(results, a.costs, a.incomes);
    forall c | c in t.equity
      ensures TotalOf(a.costs, c, 0) == Sum(t.costs, CostIn(f, c))
      ensures TotalOf(a.incomes, c, 0) == Sum(t.incomes, IncomeIn(f, c))
    {
      CostTotalIs(t, f, a.costs, c);
      IncomeTotalIs(t, f, a.incomes, c);
    }
  }

  /** Sources and exchanges. */
  method FinishResults(ghost t: Tables, ghost f: Filter, a: Answers, exchanges: map<int, Exchange>, results: map<int, Report>)
    returns (filled: map<int, Report>)
    requires ForeignKeys(t) && exchanges == t.exchanges && AreAnswers(t, f, a)
    requires results.Keys == t.equity.Keys && forall c :: c in results ==> results[c].sources == [] && results[c].fromExchanges == 0
    ensures filled.Keys == results.Keys
    ensures forall c :: c in results ==>
              filled[c] == results[c].(sources := SourcesOf(a.sources, c), fromExchanges := Sum(t.exchanges, ExchangeIn(f, c)))
  {
    RowsHaveCurrencies(t, f, a);
    filled := FillSources(results, a.sources);
    filled := FillExchanges(filled, exchanges, a.exchanges);
    forall c | c in t.equity
      ensures ExchangesOf(t.exchanges, a.exchanges, c) == Sum(t.exchanges, ExchangeIn(f, c))
    {
      ExchangeTotalIs(t, f, a.exchanges, c);
    }
  }

  /** Some currency has costs in the range that add up to zero. */
  ghost predicate Indivisible(t: Tables, f: Filter) {
    exists c :: HasCost(t, f, c) && Sum(t.costs, CostIn(f, c)) == 0
  }

  /** A currency's report through the three stages. */
  lemma ReportOf(t: Tables, f: Filter, a: Answers, c: int, started: Report, divided: Report, done: Report)
    requires started == Report(Sum(t.costs, CostIn(f, c)), [], Sum(t.incomes, IncomeIn(f, c)), [], 0)
    requires divided == if started.costs == 0 then started else started.(categories := SharesOf(a.categories, c, started.costs))
    requires done == divided.(sources := SourcesOf(a.sources, c), fromExchanges := Sum(t.exchanges, ExchangeIn(f, c)))
    ensures Reports(t, f, a, c, done)
  {
  }

  /** `transactions_basic_analytics`, given the database's answers. */
  method BasicAnalytics(ghost t: Tables, f: Filter, a: Answers, exchanges: map<int, Exchange>)
    returns (r: Result<map<int, Report>, AnalyticsError>)
    requires ForeignKeys(t) && exchanges == t.exchanges && AreAnswers(t, f, a)
    ensures r == Failure(NoFilter) <==> f.dates.None? && f.matches.None?
    ensures r == Failure(ZeroDivision) <==> (f.dates.Some? || f.matches.Some?) && Indivisible(t, f)
    ensures r.Success? ==> r.value.Keys == t.equity.Keys
    ensures r.Success? ==> forall c :: c in t.equity ==> Reports(t, f, a, c, r.value[c])
  {
    if f.dates.None? && f.matches.None? {
      return Failure(NoFilter);
    }
    RowsHaveCurrencies(t, f, a);
    var results := StartResults(t, f, a);
    r := FillCategories(results, a.categories);
    IndivisibleRow(t, f, a);
    if r.Success? {
      var filled := FinishResults(t, f, a, exchanges, r.value);
      forall c | c in t.equity ensures Reports(t, f, a, c, filled[c]) {
        ReportOf(t, f, a, c, results[c], r.value[c], filled[c]);
      }
      r := Success(filled);
    }
  }

  lemma IndivisibleRow(t: Tables, f: Filter, a: Answers)
    requires AreAnswers(t, f, a)
    ensures Indivisible(t, f) <==>
              exists i :: 0 <= i < |a.categories| && Sum(t.costs, CostIn(f, a.categories[i].currency)) == 0
  {
    CategoriesDivide(t, f, a);
    if c :| HasCost(t, f, c) && Sum(t.costs, CostIn(f, c)) == 0 {
      var i :| 0 <= i < |a.categories| && a.categories[i].currency == c;
    }
    if i :| 0 <= i < |a.categories| && Sum(t.costs, CostIn(f, a.categories[i].currency)) == 0 {
      assert HasCost(t, f, a.categories[i].currency);
    }
  }

  /** What a report says of its currency. */
  ghost predicate Reports(t: Tables, f: Filter, a: Answers, c: int, report: Report) {
    && report.costs == Sum(t.costs, CostIn(f, c))
    && report.incomes == Sum(t.incomes, IncomeIn(f, c))
    && report.fromExchanges == Sum(t.exchanges, ExchangeIn(f, c))
    && report.sources == SourcesOf(a.sources, c)
    && (if report.costs == 0 then report.categories == [] else report.categories == SharesOf(a.categories, c, report.costs))
  }

  // ------------------------------------------------------------------
  // From query answers to sums over rows
  // ------------------------------------------------------------------

  lemma RowsHaveCurrencies(t: Tables, f: Filter, a: Answers)
    requires ForeignKeys(t) && AreAnswers(t, f, a)
    ensures forall i :: 0 <= i < |a.costs| ==> a.costs[i].currency in t.equity
    ensures forall i :: 0 <= i < |a.incomes| ==> a.incomes[i].currency in t.equity
    ensures forall i :: 0 <= i < |a.categories| ==> a.categories[i].currency in t.equity
    ensures forall i :: 0 <= i < |a.sources| ==> a.sources[i].currency in t.equity
    ensures forall i :: 0 <= i < |a.exchanges| ==>
              && a.exchanges[i] in t.exchanges
              && t.exchanges[a.exchanges[i]].fromCurrency in t.equity && t.exchanges[a.exchanges[i]].toCurrency in t.equity
  {
    forall i | 0 <= i < |a.costs| ensures a.costs[i].currency in t.equity {
      assert HasCost(t, f, a.costs[i].currency);
    }
    forall i | 0 <= i < |a.incomes| ensures a.incomes[i].currency in t.equity {
      assert HasIncome(t, f, a.incomes[i].currency);
    }
    forall i | 0 <= i < |a.categories| ensures a.categories[i].currency in t.equity {
      assert HasCostIn(t, f, a.categories[i].currency, a.categories[i].category);
    }
    forall i | 0 <= i < |a.exchanges|
      ensures a.exchanges[i] in t.exchanges
      ensures t.exchanges[a.exchanges[i]].fromCurrency in t.equity && t.exchanges[a.exchanges[i]].toCurrency in t.equity
    {
      ExchangeCurrencies(t, a.exchanges[i]);
    }
    forall i | 0 <= i < |a.sources| ensures a.sources[i].currency in t.equity {
      assert HasIncomeFrom(t, f, a.sources[i].currency, a.sources[i].source);
    }
  }

  lemma ExchangeCurrencies(t: Tables, id: int)
    requires ForeignKeys(t) && id in t.exchanges
    ensures t.exchanges[id].fromCurrency in t.equity && t.exchanges[id].toCurrency in t.equity
  {
  }

  lemma {:induction false} TotalOfIs(rows: seq<Total>, c: int, i: int)
    requires forall i, k :: 0 <= i < k < |rows| ==> rows[i].currency < rows[k].currency
    requires -1 <= i < |rows| && (i >= 0 ==> rows[i].currency == c)
    requires i < 0 ==> forall k :: 0 <= k < |rows| ==> rows[k].currency != c
    ensures TotalOf(rows, c, 0) == if i >= 0 then rows[i].total else 0
  {
    if rows != [] && rows[|rows| - 1].currency != c {
      TotalOfIs(rows[..|rows| - 1], c, i);
    }
  }

  lemma CostTotalIs(t: Tables, f: Filter, rows: seq<Total>, c: int)
    requires AreCostTotals(t, f, rows)
    ensures TotalOf(rows, c, 0) == Sum(t.costs, CostIn(f, c))
  {
    if HasCost(t, f, c) {
      var i :| 0 <= i < |rows| && rows[i].currency == c;
      TotalOfIs(rows, c, i);
    } else {
      TotalOfIs(rows, c, -1);
      forall id | id in t.costs ensures CostIn(f, c)(t.costs[id]) == 0 {
      }
      SumZero(t.costs, CostIn(f, c));
    }
  }

  lemma IncomeTotalIs(t: Tables, f: Filter, rows: seq<Total>, c: int)
    requires AreIncomeTotals(t, f, rows)
    ensures TotalOf(rows, c, 0) == Sum(t.incomes, IncomeIn(f, c))
  {
    if HasIncome(t, f, c) {
      var i :| 0 <= i < |rows| && rows[i].currency == c;
      TotalOfIs(rows, c, i);
    } else {
      TotalOfIs(rows, c, -1);
      forall id | id in t.incomes ensures IncomeIn(f, c)(t.incomes[id]) == 0 {
      }
      SumZero(t.incomes, IncomeIn(f, c));
    }
  }

  /** A category row exists exactly for currencies that have costs. */
  lemma CategoriesDivide(t: Tables, f: Filter, a: Answers)
    requires AreAnswers(t, f, a)
    ensures forall c :: HasCost(t, f, c) <==> exists i :: 0 <= i < |a.categories| && a.categories[i].currency == c
  {
    forall i | 0 <= i < |a.categories| ensures HasCost(t, f, a.categories[i].currency) {
      CategoryRowHasCost(t, f, a.categories, i);
    }
    forall c | HasCost(t, f, c) ensures exists i :: 0 <= i < |a.categories| && a.categories[i].currency == c {
      var id :| id in t.costs && CostPasses(f, t.costs[id]) && t.costs[id].currency == c;
      assert HasCostIn(t, f, c, t.costs[id].category);
    }
  }

  lemma CategoryRowHasCost(t: Tables, f: Filter, rows: seq<CategoryTotal>, i: nat)
    requires AreCategoryTotals(t, f, rows) && i < |rows|
    ensures HasCost(t, f, rows[i].currency)
  {
    assert HasCostIn(t, f, rows[i].currency, rows[i].category);
  }

  /** Adding up a list of all passing rows is adding up the table. */
  lemma {:induction false} ExchangeListSum(rows: map<int, Exchange>, all: map<int, Exchange>, f: Filter, ids: seq<int>, c: int)
    requires forall i, k :: 0 <= i < k < |ids| ==> ids[i] != ids[k]
    requires forall i :: 0 <= i < |ids| ==> ids[i] in rows && ids[i] in all && ExchangePasses(f, rows[ids[i]])
    requires forall id :: id in rows ==> id in all && all[id] == rows[id]
    requires forall id :: id in rows && ExchangePasses(f, rows[id]) ==> id in ids
    ensures ExchangesOf(all, ids, c) == Sum(rows, ExchangeIn(f, c))
    decreases |ids|
  {
    if ids == [] {
      forall id | id in rows ensures ExchangeIn(f, c)(rows[id]) == 0 {
      }
      SumZero(rows, ExchangeIn(f, c));
    } else {
      var front, last := ids[..|ids| - 1], ids[|ids| - 1];
      SumRemove(rows, last, ExchangeIn(f, c));
      forall id | id in rows - {last} && ExchangePasses(f, rows[id]) ensures id in front {
        var i :| 0 <= i < |ids| && ids[i] == id;
        assert front[i] == id;
      }
      ExchangeListSum(rows - {last}, all, f, front, c);
    }
  }

  lemma ExchangeTotalIs(t: Tables, f: Filter, ids: seq<int>, c: int)
    requires AreExchanges(t, f, ids)
    ensures ExchangesOf(t.exchanges, ids, c) == Sum(t.exchanges, ExchangeIn(f, c))
  {
    ExchangeListSum(t.exchanges, t.exchanges, f, ids, c);
  }
}
