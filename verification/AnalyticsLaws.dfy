/** What the reported figures mean: they agree with equity, add up over ranges, and break down exactly. */
module AnalyticsLaws {
  import opened Wrappers
  import opened Sums
  import opened Ledger
  import opened Analytics
  import opened LedgerRuns

  // ------------------------------------------------------------------
  // Agreement with the stored equity
  // ------------------------------------------------------------------

  /** No pattern, and every row is dated inside the range. */
  ghost predicate Covers(t: Tables, f: Filter) {
    && f.matches.None?
    && (forall id :: id in t.costs ==> InDates(f, t.costs[id].date))
    && (forall id :: id in t.incomes ==> InDates(f, t.incomes[id].date))
    && (forall id :: id in t.exchanges ==> InDates(f, t.exchanges[id].date))
  }

  function Net(report: Report): int {
    report.incomes - report.costs + report.fromExchanges
  }

  /** The reported net of a covering range is the balance of the rows. */
  lemma NetIsBalance(t: Tables, f: Filter, a: Answers, c: int, report: Report)
    requires Covers(t, f) && Reports(t, f, a, c, report)
    ensures Net(report) == Balance(t, c)
  {
    forall id | id in t.costs ensures CostTerm(c)(t.costs[id]) == -CostIn(f, c)(t.costs[id]) {
    }
    SumNegate(t.costs, CostIn(f, c), CostTerm(c));
    forall id | id in t.incomes ensures IncomeTerm(c)(t.incomes[id]) == IncomeIn(f, c)(t.incomes[id]) {
    }
    SumSame(t.incomes, IncomeTerm(c), IncomeIn(f, c));
    forall id | id in t.exchanges ensures ExchangeTerm(c)(t.exchanges[id]) == ExchangeIn(f, c)(t.exchanges[id]) {
    }
    SumSame(t.exchanges, ExchangeTerm(c), ExchangeIn(f, c));
  }

  /** After any conflict-free run of ledger operations, analytics and equity tell the same story. */
  lemma AnalyticsAgreesWithEquity(s: State, acts: seq<Action>, f: Filter, a: Answers, c: int, report: Report)
    requires Balanced(s) && LedgerRuns.Runs(s, acts) && ConflictFree(s, acts)
    requires var t := LedgerRuns.After(s, acts).t; Covers(t, f) && c in t.equity && Reports(t, f, a, c, report)
    ensures var s' := LedgerRuns.After(s, acts);
            c in s'.opening && Net(report) == s'.t.equity[c] - s'.opening[c]
  {
    RunBalanced(s, acts);
    NetIsBalance(LedgerRuns.After(s, acts).t, f, a, c, report);
  }

  /** After any run at all, analytics differs from the movement of the equity by the drifts of its commits. */
  lemma AnalyticsDiffersByDrift(s: State, acts: seq<Action>, f: Filter, a: Answers, c: int, report: Report)
    requires Consistent(s) && LedgerRuns.Runs(s, acts)
    requires var t := LedgerRuns.After(s, acts).t; Covers(t, f) && c in t.equity && Reports(t, f, a, c, report)
    ensures var s' := LedgerRuns.After(s, acts);
            c in s'.opening && Net(report) == s'.t.equity[c] - s'.opening[c] - DriftOver(s, acts, c, GapOrZero(s, c))
  {
    RunGap(s, acts, c);
    NetIsBalance(LedgerRuns.After(s, acts).t, f, a, c, report);
  }

  // ------------------------------------------------------------------
  // Adjacent ranges
  // ------------------------------------------------------------------

  function Between(first: int, last: int, matches: Option<string -> bool>): Filter {
    Filter(Some((first, last)), matches)
  }

  /** Figures over [i, j] and [j + 1, k] add up to those over [i, k]. */
  lemma AdjacentRangesAdd(t: Tables, i: int, j: int, k: int, matches: Option<string -> bool>, c: int)
    requires i <= j + 1 <= k + 1
    ensures var left, right, whole := Between(i, j, matches), Between(j + 1, k, matches), Between(i, k, matches);
            && Sum(t.costs, CostIn(whole, c)) == Sum(t.costs, CostIn(left, c)) + Sum(t.costs, CostIn(right, c))
            && Sum(t.incomes, IncomeIn(whole, c)) == Sum(t.incomes, IncomeIn(left, c)) + Sum(t.incomes, IncomeIn(right, c))
            && Sum(t.exchanges, ExchangeIn(whole, c)) == Sum(t.exchanges, ExchangeIn(left, c)) + Sum(t.exchanges, ExchangeIn(right, c))
  {
    var left, right, whole := Between(i, j, matches), Between(j + 1, k, matches), Between(i, k, matches);
    forall id | id in t.costs
      ensures CostIn(whole, c)(t.costs[id]) == CostIn(left, c)(t.costs[id]) + CostIn(right, c)(t.costs[id]) {
    }
    SumSplit(t.costs, CostIn(whole, c), CostIn(left, c), CostIn(right, c));
    forall id | id in t.incomes
      ensures IncomeIn(whole, c)(t.incomes[id]) == IncomeIn(left, c)(t.incomes[id]) + IncomeIn(right, c)(t.incomes[id]) {
    }
    SumSplit(t.incomes, IncomeIn(whole, c), IncomeIn(left, c), IncomeIn(right, c));
    forall id | id in t.exchanges
      ensures ExchangeIn(whole, c)(t.exchanges[id]) == ExchangeIn(left, c)(t.exchanges[id]) + ExchangeIn(right, c)(t.exchanges[id]) {
    }
    SumSplit(t.exchanges, ExchangeIn(whole, c), ExchangeIn(left, c), ExchangeIn(right, c));
  }

  /** Hence the nets of two adjacent reports add up. */
  lemma AdjacentReportsAdd(t: Tables, i: int, j: int, k: int, matches: Option<string -> bool>, c: int,
                           a1: Answers, a2: Answers, a3: Answers, left: Report, right: Report, whole: Report)
    requires i <= j + 1 <= k + 1
    requires Reports(t, Between(i, j, matches), a1, c, left)
    requires Reports(t, Between(j + 1, k, matches), a2, c, right)
    requires Reports(t, Between(i, k, matches), a3, c, whole)
    ensures Net(whole) == Net(left) + Net(right)
  {
    AdjacentRangesAdd(t, i, j, k, matches, c);
  }

  // ------------------------------------------------------------------
  // The breakdown by category and by source
  // ------------------------------------------------------------------

  function ShareTotal(shares: seq<CategoryShare>): int {
    if shares == [] then 0 else ShareTotal(shares[..|shares| - 1]) + shares[|shares| - 1].total
  }

  function RatioTotal(shares: seq<CategoryShare>): real {
    if shares == [] then 0.0 else RatioTotal(shares[..|shares| - 1]) + shares[|shares| - 1].ratio
  }

  function SourceSum(sources: seq<SourceTotal>): int {
    if sources == [] then 0 else SourceSum(sources[..|sources| - 1]) + sources[|sources| - 1].total
  }

  function CategoriesOf(rows: seq<CategoryTotal>, c: int): (categories: set<int>)
    ensures forall g :: g in categories <==> exists i :: 0 <= i < |rows| && rows[i].currency == c && rows[i].category == g
  {
    if rows == [] then {}
    else
      var last := rows[|rows| - 1];
      CategoriesOf(rows[..|rows| - 1], c) + if last.currency == c then {last.category} else {}
  }

  function SourceNames(rows: seq<SourceRow>, c: int): (names: set<string>)
    ensures forall g :: g in names <==> exists i :: 0 <= i < |rows| && rows[i].currency == c && rows[i].source == g
  {
    if rows == [] then {}
    else
      var last := rows[|rows| - 1];
      SourceNames(rows[..|rows| - 1], c) + if last.currency == c then {last.source} else {}
  }

  function CostInCategories(f: Filter, c: int, categories: set<int>): Cost -> int {
    row => if CostPasses(f, row) && row.currency == c && row.category in categories then row.value else 0
  }

  function IncomeFromSources(f: Filter, c: int, sources: set<string>): Income -> int {
    row => if IncomePasses(f, row) && row.currency == c && row.source in sources then row.value else 0
  }

  /** The rows listed so far account for exactly the costs of their categories. */
  lemma {:induction false} SharesCover(t: Tables, f: Filter, rows: seq<CategoryTotal>, c: int, total: int)
    requires total != 0
    requires forall i, k :: 0 <= i < k < |rows| ==> rows[i].currency != rows[k].currency || rows[i].category != rows[k].category
    requires forall i :: 0 <= i < |rows| ==> rows[i].total == Sum(t.costs, CostInCategory(f, rows[i].currency, rows[i].category))
    ensures ShareTotal(SharesOf(rows, c, total)) == Sum(t.costs, CostInCategories(f, c, CategoriesOf(rows, c)))
    decreases |rows|
  {
    if rows == [] {
      forall id | id in t.costs ensures CostInCategories(f, c, {})(t.costs[id]) == 0 {
      }
      SumZero(t.costs, CostInCategories(f, c, {}));
    } else {
      var front, last := rows[..|rows| - 1], rows[|rows| - 1];
      var before, after := SharesOf(front, c, total), SharesOf(rows, c, total);
      SharesCover(t, f, front, c, total);
      if last.currency == c {
        assert after[..|after| - 1] == before;
        CostsSplit(t, f, c, CategoriesOf(front, c), last.category);
      } else {
        assert after == before;
        assert CategoriesOf(rows, c) == CategoriesOf(front, c);
      }
    }
  }

  lemma {:induction false} RatiosScale(rows: seq<CategoryTotal>, c: int, total: int)
    requires total != 0
    ensures var shares := SharesOf(rows, c, total);
            RatioTotal(shares) == ShareTotal(shares) as real / total as real * 100.0
    decreases |rows|
  {
    if rows != [] {
      var front, last := rows[..|rows| - 1], rows[|rows| - 1];
      var before, after := SharesOf(front, c, total), SharesOf(rows, c, total);
      RatiosScale(front, c, total);
      if last.currency == c {
        assert after[..|after| - 1] == before;
        Scale(ShareTotal(before), last.total, total);
      } else {
        assert after == before;
      }
    }
  }

  lemma Scale(x: int, y: int, total: int)
    requires total != 0
    ensures (x + y) as real / total as real * 100.0 == x as real / total as real * 100.0 + y as real / total as real * 100.0
  {
  }

  lemma CostsSplit(t: Tables, f: Filter, c: int, categories: set<int>, category: int)
    requires category !in categories
    ensures Sum(t.costs, CostInCategories(f, c, categories + {category})) ==
            Sum(t.costs, CostInCategories(f, c, categories)) + Sum(t.costs, CostInCategory(f, c, category))
  {
    var h, g, k := CostInCategories(f, c, categories + {category}), CostInCategories(f, c, categories), CostInCategory(f, c, category);
    forall id | id in t.costs ensures h(t.costs[id]) == g(t.costs[id]) + k(t.costs[id]) {
    }
    SumSplit(t.costs, h, g, k);
  }

  /** What one more row adds to a currency's shares. */
  lemma {:induction false} SharesStep(rows: seq<CategoryTotal>, c: int, total: int)
    requires total != 0 && rows != []
    ensures var last := rows[|rows| - 1];
            var before, shares := SharesOf(rows[..|rows| - 1], c, total), SharesOf(rows, c, total);
            && (last.currency != c ==> shares == before)
            && (last.currency == c ==>
                  && |shares| == |before| + 1 && (forall i :: 0 <= i < |before| ==> shares[i] == before[i])
                  && shares[|before|].category == last.category && shares[|before|].total == last.total)
  {
    var last := rows[|rows| - 1];
    var before, shares := SharesOf(rows[..|rows| - 1], c, total), SharesOf(rows, c, total);
    if last.currency == c {
      assert shares == before + [CategoryShare(last.category, last.total, last.total as real / total as real * 100.0)];
    } else {
      assert shares == before + [];
    }
  }

  lemma PercentOf(x: int, total: int)
    requires total != 0
    ensures x as real / total as real * 100.0 * total as real == x as real * 100.0
  {
    var q := x as real / total as real;
    assert q * total as real == x as real;
    assert q * 100.0 * total as real == q * total as real * 100.0;
  }

  /** Each share's ratio is its own total's part of the whole, in percent. */
  lemma {:induction false} ShareRatio(rows: seq<CategoryTotal>, c: int, total: int, i: nat)
    requires total != 0 && i < |SharesOf(rows, c, total)|
    ensures var share := SharesOf(rows, c, total)[i]; IsPercent(share.ratio, share.total, total)
    decreases |rows|
  {
    var front, last := rows[..|rows| - 1], rows[|rows| - 1];
    var before, shares := SharesOf(front, c, total), SharesOf(rows, c, total);
    var share := CategoryShare(last.category, last.total, last.total as real / total as real * 100.0);
    assert shares == before + if last.currency == c then [share] else [];
    if i < |before| {
      ShareRatio(front, c, total, i);
      assert shares[i] == before[i];
    } else {
      PercentOf(last.total, total);
      assert shares[i] == share;
    }
  }

  predicate IsPercent(ratio: real, part: int, total: int) {
    ratio * total as real == part as real * 100.0
  }

  lemma {:induction false} SharesAreRows(rows: seq<CategoryTotal>, c: int, total: int)
    requires total != 0
    ensures var shares := SharesOf(rows, c, total);
            forall i :: 0 <= i < |shares| ==> CategoryTotal(c, shares[i].category, shares[i].total) in rows
    decreases |rows|
  {
    if rows != [] {
      var front, last := rows[..|rows| - 1], rows[|rows| - 1];
      var before, shares := SharesOf(front, c, total), SharesOf(rows, c, total);
      SharesAreRows(front, c, total);
      SharesStep(rows, c, total);
      forall i | 0 <= i < |shares| ensures CategoryTotal(c, shares[i].category, shares[i].total) in rows {
        if i < |before| {
          var k :| 0 <= k < |front| && front[k] == CategoryTotal(c, before[i].category, before[i].total);
          assert rows[k] == front[k];
        } else {
          assert rows[|rows| - 1] == last;
        }
      }
    }
  }

  lemma {:induction false} RowsHaveShares(rows: seq<CategoryTotal>, c: int, total: int, k: nat)
    requires total != 0 && k < |rows| && rows[k].currency == c
    ensures var shares := SharesOf(rows, c, total);
            exists i :: 0 <= i < |shares| && shares[i].category == rows[k].category
    decreases |rows|
  {
    var front := rows[..|rows| - 1];
    var before, shares := SharesOf(front, c, total), SharesOf(rows, c, total);
    SharesStep(rows, c, total);
    if k < |front| {
      RowsHaveShares(front, c, total, k);
      var i :| 0 <= i < |before| && before[i].category == front[k].category;
      assert shares[i] == before[i];
    } else {
      assert shares[|shares| - 1].category == rows[k].category;
    }
  }

  /** A currency's shares are its own categories, each once. */
  lemma {:induction false} SharesDistinct(rows: seq<CategoryTotal>, c: int, total: int)
    requires total != 0
    requires forall i, k :: 0 <= i < k < |rows| ==> rows[i].currency != rows[k].currency || rows[i].category != rows[k].category
    ensures var shares := SharesOf(rows, c, total);
            forall i, k :: 0 <= i < k < |shares| ==> shares[i].category != shares[k].category
    decreases |rows|
  {
    if rows != [] {
      var front, last := rows[..|rows| - 1], rows[|rows| - 1];
      var before := SharesOf(front, c, total);
      SharesDistinct(front, c, total);
      SharesAreRows(front, c, total);
      SharesStep(rows, c, total);
      forall i | 0 <= i < |before| && last.currency == c ensures before[i].category != last.category {
        var row := CategoryTotal(c, before[i].category, before[i].total);
        var k :| 0 <= k < |front| && front[k] == row;
        assert rows[k] == row && rows[|front|] == last;
      }
    }
  }

  /** The totals of a currency's categories add up to its costs, their ratios to 100. */
  lemma CategoryTotals(t: Tables, f: Filter, a: Answers, c: int, report: Report)
    requires AreAnswers(t, f, a) && Reports(t, f, a, c, report) && report.costs != 0
    ensures ShareTotal(report.categories) == report.costs
    ensures RatioTotal(report.categories) == 100.0
  {
    SharesCover(t, f, a.categories, c, report.costs);
    RatiosScale(a.categories, c, report.costs);
    AllCategoriesListed(t, f, a.categories, c);
    Whole(report.costs);
  }

  lemma Whole(total: int)
    requires total != 0
    ensures total as real / total as real * 100.0 == 100.0
  {
  }

  /** A currency's categories are exactly those it has costs in, each once, each with its own total. */
  lemma CategoryBreakdown(t: Tables, f: Filter, a: Answers, c: int, report: Report)
    requires AreAnswers(t, f, a) && Reports(t, f, a, c, report) && report.costs != 0
    ensures forall g :: HasCostIn(t, f, c, g) <==> exists i :: 0 <= i < |report.categories| && report.categories[i].category == g
    ensures forall i, k :: 0 <= i < k < |report.categories| ==> report.categories[i].category != report.categories[k].category
    ensures forall i :: 0 <= i < |report.categories| ==>
              report.categories[i].total == Sum(t.costs, CostInCategory(f, c, report.categories[i].category))
    ensures forall i :: 0 <= i < |report.categories| ==>
              IsPercent(report.categories[i].ratio, report.categories[i].total, report.costs)
  {
    var rows := a.categories;
    forall i | 0 <= i < |report.categories|
      ensures IsPercent(report.categories[i].ratio, report.categories[i].total, report.costs)
    {
      ShareRatio(rows, c, report.costs, i);
    }
    SharesAreRows(rows, c, report.costs);
    SharesDistinct(rows, c, report.costs);
    assert report.categories == SharesOf(rows, c, report.costs);
    forall g | HasCostIn(t, f, c, g)
      ensures exists i :: 0 <= i < |report.categories| && report.categories[i].category == g
    {
      var i :| 0 <= i < |rows| && rows[i].currency == c && rows[i].category == g;
      RowsHaveShares(rows, c, report.costs, i);
    }
    forall i | 0 <= i < |report.categories|
      ensures HasCostIn(t, f, c, report.categories[i].category)
      ensures report.categories[i].total == Sum(t.costs, CostInCategory(f, c, report.categories[i].category))
    {
      var share := report.categories[i];
      assert CategoryTotal(c, share.category, share.total) in rows;
      var k :| 0 <= k < |rows| && rows[k] == CategoryTotal(c, share.category, share.total);
      assert HasCostIn(t, f, rows[k].currency, rows[k].category);
    }
  }

  lemma AllCategoriesListed(t: Tables, f: Filter, rows: seq<CategoryTotal>, c: int)
    requires AreCategoryTotals(t, f, rows)
    ensures Sum(t.costs, CostInCategories(f, c, CategoriesOf(rows, c))) == Sum(t.costs, CostIn(f, c))
  {
    var cs := CategoriesOf(rows, c);
    forall id | id in t.costs ensures CostInCategories(f, c, cs)(t.costs[id]) == CostIn(f, c)(t.costs[id]) {
      var row := t.costs[id];
      if CostPasses(f, row) && row.currency == c {
        assert HasCostIn(t, f, c, row.category);
        var i :| 0 <= i < |rows| && rows[i].currency == c && rows[i].category == row.category;
        assert row.category in cs;
      }
    }
    SumSame(t.costs, CostInCategories(f, c, cs), CostIn(f, c));
  }

  lemma {:induction false} SourcesCover(t: Tables, f: Filter, rows: seq<SourceRow>, c: int)
    requires forall i, k :: 0 <= i < k < |rows| ==> rows[i].currency != rows[k].currency || rows[i].source != rows[k].source
    requires forall i :: 0 <= i < |rows| ==> rows[i].total == Sum(t.incomes, IncomeFromSource(f, rows[i].currency, rows[i].source))
    ensures SourceSum(SourcesOf(rows, c)) == Sum(t.incomes, IncomeFromSources(f, c, SourceNames(rows, c)))
    decreases |rows|
  {
    if rows == [] {
      forall id | id in t.incomes ensures IncomeFromSources(f, c, {})(t.incomes[id]) == 0 {
      }
      SumZero(t.incomes, IncomeFromSources(f, c, {}));
    } else {
      var front, last := rows[..|rows| - 1], rows[|rows| - 1];
      var before, after := SourcesOf(front, c), SourcesOf(rows, c);
      SourcesCover(t, f, front, c);
      if last.currency == c {
        assert after[..|after| - 1] == before;
        IncomesSplit(t, f, c, SourceNames(front, c), last.source);
      } else {
        assert after == before;
        assert SourceNames(rows, c) == SourceNames(front, c);
      }
    }
  }

  lemma IncomesSplit(t: Tables, f: Filter, c: int, sources: set<string>, source: string)
    requires source !in sources
    ensures Sum(t.incomes, IncomeFromSources(f, c, sources + {source})) ==
            Sum(t.incomes, IncomeFromSources(f, c, sources)) + Sum(t.incomes, IncomeFromSource(f, c, source))
  {
    var h, g, k := IncomeFromSources(f, c, sources + {source}), IncomeFromSources(f, c, sources), IncomeFromSource(f, c, source);
    forall id | id in t.incomes ensures h(t.incomes[id]) == g(t.incomes[id]) + k(t.incomes[id]) {
    }
    SumSplit(t.incomes, h, g, k);
  }

  /** What one more row adds to a currency's sources. */
  lemma {:induction false} SourcesStep(rows: seq<SourceRow>, c: int)
    requires rows != []
    ensures var last := rows[|rows| - 1];
            SourcesOf(rows, c) ==
            SourcesOf(rows[..|rows| - 1], c) + (if last.currency == c then [SourceTotal(last.source, last.total)] else [])
  {
  }

  lemma {:induction false} SourcesAreRows(rows: seq<SourceRow>, c: int)
    ensures forall e :: e in SourcesOf(rows, c) <==> SourceRow(c, e.source, e.total) in rows
    decreases |rows|
  {
    if rows != [] {
      var front, last := rows[..|rows| - 1], rows[|rows| - 1];
      SourcesAreRows(front, c);
      SourcesStep(rows, c);
      assert rows == front + [last];
    }
  }

  lemma {:induction false} SourcesDistinct(rows: seq<SourceRow>, c: int)
    requires forall i, k :: 0 <= i < k < |rows| ==> rows[i].currency != rows[k].currency || rows[i].source != rows[k].source
    ensures var sources := SourcesOf(rows, c);
            forall i, k :: 0 <= i < k < |sources| ==> sources[i].source != sources[k].source
    decreases |rows|
  {
    if rows != [] {
      var front, last := rows[..|rows| - 1], rows[|rows| - 1];
      var before := SourcesOf(front, c);
      SourcesDistinct(front, c);
      SourcesAreRows(front, c);
      SourcesStep(rows, c);
      forall i | 0 <= i < |before| && last.currency == c ensures before[i].source != last.source {
        assert before[i] in before;
        var k :| 0 <= k < |front| && front[k] == SourceRow(c, before[i].source, before[i].total);
        assert rows[k] == front[k] && rows[|front|] == last;
      }
    }
  }

  /** A currency's sources are exactly those it has incomes from, each once, each with its own total. */
  lemma SourceTotals(t: Tables, f: Filter, a: Answers, c: int, report: Report)
    requires AreAnswers(t, f, a) && Reports(t, f, a, c, report)
    ensures forall g :: HasIncomeFrom(t, f, c, g) <==> exists i :: 0 <= i < |report.sources| && report.sources[i].source == g
    ensures forall i, k :: 0 <= i < k < |report.sources| ==> report.sources[i].source != report.sources[k].source
    ensures forall i :: 0 <= i < |report.sources| ==>
              report.sources[i].total == Sum(t.incomes, IncomeFromSource(f, c, report.sources[i].source))
  {
    var rows := a.sources;
    SourcesAreRows(rows, c);
    SourcesDistinct(rows, c);
    assert report.sources == SourcesOf(rows, c);
    forall g | HasIncomeFrom(t, f, c, g) ensures exists i :: 0 <= i < |report.sources| && report.sources[i].source == g {
      var i :| 0 <= i < |rows| && rows[i].currency == c && rows[i].source == g;
      var e := SourceTotal(g, rows[i].total);
      assert SourceRow(c, g, rows[i].total) == rows[i];
      assert e in report.sources;
    }
    forall i | 0 <= i < |report.sources|
      ensures HasIncomeFrom(t, f, c, report.sources[i].source)
      ensures report.sources[i].total == Sum(t.incomes, IncomeFromSource(f, c, report.sources[i].source))
    {
      var e := report.sources[i];
      assert e in report.sources;
      var k :| 0 <= k < |rows| && rows[k] == SourceRow(c, e.source, e.total);
      assert HasIncomeFrom(t, f, rows[k].currency, rows[k].source);
    }
  }

  /** A currency's source totals add up to its incomes. */
  lemma SourceBreakdown(t: Tables, f: Filter, a: Answers, c: int, report: Report)
    requires AreAnswers(t, f, a) && Reports(t, f, a, c, report)
    ensures SourceSum(report.sources) == report.incomes
  {
    var rows := a.sources;
    SourcesCover(t, f, rows, c);
    var names := SourceNames(rows, c);
    forall id | id in t.incomes ensures IncomeFromSources(f, c, names)(t.incomes[id]) == IncomeIn(f, c)(t.incomes[id]) {
      var row := t.incomes[id];
      if IncomePasses(f, row) && row.currency == c {
        assert HasIncomeFrom(t, f, c, row.source);
        var i :| 0 <= i < |rows| && rows[i].currency == c && rows[i].source == row.source;
        assert row.source in names;
      }
    }
    SumSame(t.incomes, IncomeFromSources(f, c, names), IncomeIn(f, c));
  }

  // ------------------------------------------------------------------
  // What the filters mean
  // ------------------------------------------------------------------

  /** Both ends of the range belong to it. */
  predicate Dated(f: Filter, date: int) {
    match f.dates
    case None => true
    case Some(range) => range.0 <= date && date <= range.1
  }

  predicate Called(f: Filter, name: string) {
    match f.matches
    case None => true
    case Some(matches) => matches(name)
  }

  /** Costs and incomes are filtered by date and name, exchanges by date, and a pattern leaves no exchange. */
  lemma FiltersMean(f: Filter, cost: Cost, income: Income, exchange: Exchange)
    ensures CostPasses(f, cost) <==> Dated(f, cost.date) && Called(f, cost.name)
    ensures IncomePasses(f, income) <==> Dated(f, income.date) && Called(f, income.name)
    ensures ExchangePasses(f, exchange) <==> Dated(f, exchange.date) && f.matches.None?
  {
  }

  /** With a pattern, no exchange counts for any currency. */
  lemma PatternHidesExchanges(t: Tables, f: Filter, a: Answers, c: int, report: Report)
    requires Reports(t, f, a, c, report) && f.matches.Some?
    ensures report.fromExchanges == 0
  {
    forall id | id in t.exchanges ensures ExchangeIn(f, c)(t.exchanges[id]) == 0 {
    }
    SumZero(t.exchanges, ExchangeIn(f, c));
  }

  /** With positive costs only, no currency that has costs can make the division fail. */
  lemma PositiveCostsDivide(t: Tables, f: Filter, c: int)
    requires (forall id :: id in t.costs ==> t.costs[id].value > 0) && HasCost(t, f, c)
    ensures Sum(t.costs, CostIn(f, c)) > 0
  {
    var id :| id in t.costs && CostPasses(f, t.costs[id]) && t.costs[id].currency == c;
    forall k | k in t.costs ensures CostIn(f, c)(t.costs[k]) >= 0 {
    }
    SumPositive(t.costs, CostIn(f, c));
    assert CostIn(f, c)(t.costs[id]) > 0;
  }

  /** All costs of a currency that pass the filter are zero. */
  ghost predicate AllZero(t: Tables, f: Filter, c: int) {
    forall id :: id in t.costs && CostPasses(f, t.costs[id]) && t.costs[id].currency == c ==> t.costs[id].value == 0
  }

  lemma ZeroSumIff(t: Tables, f: Filter, c: int)
    requires forall id :: id in t.costs ==> t.costs[id].value >= 0
    ensures Sum(t.costs, CostIn(f, c)) == 0 <==> AllZero(t, f, c)
  {
    forall id | id in t.costs ensures CostIn(f, c)(t.costs[id]) >= 0 {
    }
    SumPositive(t.costs, CostIn(f, c));
    if Sum(t.costs, CostIn(f, c)) == 0 {
      forall id | id in t.costs && CostPasses(f, t.costs[id]) && t.costs[id].currency == c ensures t.costs[id].value == 0 {
        assert CostIn(f, c)(t.costs[id]) == 0;
      }
    }
    if AllZero(t, f, c) {
      forall id | id in t.costs ensures CostIn(f, c)(t.costs[id]) == 0 {
      }
    }
  }

  /** Without negative costs, the division fails exactly when a currency has costs and all of them are zero. */
  lemma IndivisibleIff(t: Tables, f: Filter)
    requires forall id :: id in t.costs ==> t.costs[id].value >= 0
    ensures Indivisible(t, f) <==> exists c :: HasCost(t, f, c) && AllZero(t, f, c)
  {
    forall c ensures Sum(t.costs, CostIn(f, c)) == 0 <==> AllZero(t, f, c) {
      ZeroSumIff(t, f, c);
    }
  }

  const Gift := Cost("gift", 0, 5, 1, 2, 3)
  const OnlyGift := Tables(map[7 := Gift], map[], map[], map[1 := 0], {2}, {3})

  /** One cost of zero, which an add accepts, is enough. */
  lemma ZeroCostDivides()
    ensures AddCost(OnlyGift.(costs := map[]), 7, Gift) == Success(OnlyGift)
    ensures Indivisible(OnlyGift, Filter(Some((0, 9)), None))
  {
    var f := Filter(Some((0, 9)), None);
    assert AddCost(OnlyGift.(costs := map[]), 7, Gift).value.equity == OnlyGift.equity;
    assert CostPasses(f, OnlyGift.costs[7]) && HasCost(OnlyGift, f, 1);
    IndivisibleIff(OnlyGift, f);
  }
}
