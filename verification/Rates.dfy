/** The exchange-rate table, the closest-rate lookup, and the filling of missing days. */
module Rates {
  import opened Wrappers

  /** One row; `rate` is the UAH price of one unit of `to`. */
  datatype Rate = Rate(from: string, to: string, rate: real, date: int, source: string)

  /** What the NBU client yields for one date. */
  datatype Fetched = Fetched(cc: string, rate: real, date: int)

  type Fetcher = (string, int) -> Option<Fetched>

  // ------------------------------------------------------------------
  // The table
  // ------------------------------------------------------------------

  predicate SameKey(a: Rate, b: Rate) {
    a.from == b.from && a.to == b.to && a.date == b.date
  }

  /** The unique constraint on (from, to, date). */
  predicate Unique(rows: seq<Rate>) {
    forall i, k :: 0 <= i < k < |rows| ==> !SameKey(rows[i], rows[k])
  }

  predicate IsFor(row: Rate, cc: string) {
    row.from == "UAH" && row.to == cc
  }

  predicate Has(rows: seq<Rate>, cc: string, date: int) {
    exists i :: 0 <= i < |rows| && IsFor(rows[i], cc) && rows[i].date == date
  }

  predicate HasAny(rows: seq<Rate>, cc: string) {
    exists i :: 0 <= i < |rows| && IsFor(rows[i], cc)
  }

  predicate KeyTaken(rows: seq<Rate>, row: Rate) {
    exists i :: 0 <= i < |rows| && SameKey(rows[i], row)
  }

  // ------------------------------------------------------------------
  // The closest rate, as two queries
  // ------------------------------------------------------------------

  /** `date <= target ORDER BY date DESC LIMIT 1` */
  function LatestUpTo(rows: seq<Rate>, cc: string, target: int): (r: Option<Rate>)
    ensures r.Some? ==> r.value in rows && IsFor(r.value, cc) && r.value.date <= target
    ensures forall i :: 0 <= i < |rows| && IsFor(rows[i], cc) && rows[i].date <= target ==>
              r.Some? && rows[i].date <= r.value.date
  {
    if rows == [] then None
    else
      var rest, last := LatestUpTo(rows[..|rows| - 1], cc, target), rows[|rows| - 1];
      if IsFor(last, cc) && last.date <= target && (rest.None? || rest.value.date < last.date) then Some(last) else rest
  }

  /** `date >= target ORDER BY date ASC LIMIT 1` */
  function EarliestFrom(rows: seq<Rate>, cc: string, target: int): (r: Option<Rate>)
    ensures r.Some? ==> r.value in rows && IsFor(r.value, cc) && r.value.date >= target
    ensures forall i :: 0 <= i < |rows| && IsFor(rows[i], cc) && rows[i].date >= target ==>
              r.Some? && rows[i].date >= r.value.date
  {
    if rows == [] then None
    else
      var rest, last := EarliestFrom(rows[..|rows| - 1], cc, target), rows[|rows| - 1];
      if IsFor(last, cc) && last.date >= target && (rest.None? || rest.value.date > last.date) then Some(last) else rest
  }

  function Distance(a: int, b: int): nat {
    if a <= b then b - a else a - b
  }

  /** `get_closest_rate` */
  function ClosestRate(rows: seq<Rate>, cc: string, target: int): Option<Rate> {
    var before, after := LatestUpTo(rows, cc, target), EarliestFrom(rows, cc, target);
    if before.None? then after
    else if after.None? then before
    else if Distance(target, before.value.date) <= Distance(after.value.date, target) then before else after
  }

  /** A row of minimum distance; among equally distant ones, the earlier. */
  predicate IsClosest(rows: seq<Rate>, cc: string, target: int, row: Rate) {
    && row in rows && IsFor(row, cc)
    && (forall i :: 0 <= i < |rows| && IsFor(rows[i], cc) ==>
          || Distance(row.date, target) < Distance(rows[i].date, target)
          || (Distance(row.date, target) == Distance(rows[i].date, target) && row.date <= rows[i].date))
  }

  /** The two queries find the argmin, and find something whenever there is anything. */
  lemma ClosestIsArgmin(rows: seq<Rate>, cc: string, target: int)
    ensures ClosestRate(rows, cc, target).Some? <==> HasAny(rows, cc)
    ensures ClosestRate(rows, cc, target).Some? ==> IsClosest(rows, cc, target, ClosestRate(rows, cc, target).value)
  {
  }

  lemma ClosestUnique(rows: seq<Rate>, cc: string, target: int, a: Rate, b: Rate)
    requires Unique(rows) && IsClosest(rows, cc, target, a) && IsClosest(rows, cc, target, b)
    ensures a == b
  {
    var i :| 0 <= i < |rows| && rows[i] == a;
    var k :| 0 <= k < |rows| && rows[k] == b;
    assert a.date == b.date;
    assert SameKey(rows[i], rows[k]);
  }

  /** No row of the currency is dated strictly between two days. */
  predicate NoneBetween(rows: seq<Rate>, cc: string, a: int, b: int) {
    forall i :: 0 <= i < |rows| && IsFor(rows[i], cc) ==> !(a < rows[i].date < b)
  }

  /**
   The row closest to the start of a range is also closest to a later day
   exactly when no row lies between it and its mirror image around that day.
   */
  lemma ClosestToStartIff(rows: seq<Rate>, cc: string, first: int, d: int)
    requires first <= d && ClosestRate(rows, cc, first).Some?
    ensures var c := ClosestRate(rows, cc, first).value;
            IsClosest(rows, cc, d, c) <==> NoneBetween(rows, cc, c.date, 2 * d - c.date)
  {
    ClosestIsArgmin(rows, cc, first);
  }

  // ------------------------------------------------------------------
  // Filling
  // ------------------------------------------------------------------

  /** Rates come back only for the date and the currency that were asked for. */
  ghost predicate Faithful(fetch: Fetcher) {
    forall cc, date :: fetch(cc, date).Some? ==> fetch(cc, date).value.cc == cc && fetch(cc, date).value.date == date
  }

  /** Rows of `rows` from index k on are fetched rates of missing days. */
  ghost predicate AreFetched(rows: seq<Rate>, k: nat, cc: string, missing: set<int>, fetch: Fetcher) {
    forall i :: k <= i < |rows| ==>
      && rows[i].date in missing && fetch(cc, rows[i].date).Some?
      && rows[i] == Rate("UAH", cc, fetch(cc, rows[i].date).value.rate, rows[i].date, "nbu")
  }

  /** Rows from index k on carry one rate over to missing days for which nothing was fetched. */
  ghost predicate AreFallbacks(rows: seq<Rate>, k: nat, cc: string, missing: set<int>, fetch: Fetcher, rate: real) {
    forall i :: k <= i < |rows| ==>
      && rows[i].date in missing && fetch(cc, rows[i].date).None?
      && rows[i] == Rate("UAH", cc, rate, rows[i].date, "fallback")
  }

  ghost predicate MissingExactly(rows: seq<Rate>, cc: string, first: int, last: int, missing: set<int>) {
    forall d :: d in missing <==> first <= d <= last && !Has(rows, cc, d)
  }

  /**
   One currency, done: fetched rows first, then one fallback rate, the one
   closest to the START of the range, for every day still missing.
   */
  ghost predicate FilledVia(before: seq<Rate>, middle: seq<Rate>, after: seq<Rate>, cc: string, first: int,
                            missing: set<int>, fetch: Fetcher)
  {
    && before <= middle <= after && Unique(after)
    && AreFetched(middle, |before|, cc, missing, fetch)
    && (forall d :: d in missing && fetch(cc, d).Some? ==> Has(middle, cc, d))
    && (if ClosestRate(middle, cc, first).Some?
        then AreFallbacks(after, |middle|, cc, missing, fetch, ClosestRate(middle, cc, first).value.rate)
             && forall d :: d in missing ==> Has(after, cc, d)
        else after == middle)
  }

  ghost predicate Filled(before: seq<Rate>, after: seq<Rate>, cc: string, first: int, last: int, fetch: Fetcher) {
    exists missing, middle ::
      MissingExactly(before, cc, first, last, missing) && FilledVia(before, middle, after, cc, first, missing, fetch)
  }

  class RateStore {
    var rows: seq<Rate>

    /** Insert one row in a transaction of its own; the unique constraint may refuse it. */
    method AddRate(row: Rate) returns (refused: bool)
      requires Unique(rows)
      modifies this
      ensures refused <==> KeyTaken(old(rows), row)
      ensures Unique(rows) && rows == if refused then old(rows) else old(rows) + [row]
    {
      refused := exists i :: 0 <= i < |rows| && SameKey(rows[i], row);
      if !refused {
        rows := rows + [row];
      }
    }

    method GetExistingDates(cc: string, first: int, last: int) returns (dates: set<int>)
      ensures forall d :: d in dates <==> first <= d <= last && Has(rows, cc, d)
    {
      dates := {};
      for i := 0 to |rows|
        invariant forall d :: d in dates <==> first <= d <= last && Has(rows[..i], cc, d)
      {
        assert rows[..i + 1] == rows[..i] + [rows[i]];
        HasSnoc(rows[..i], rows[i], cc);
        if IsFor(rows[i], cc) && first <= rows[i].date <= last {
          dates := dates + {rows[i].date};
        }
      }
      assert rows[..|rows|] == rows;
    }

    /** Save what the client yields, in whatever order its tasks finish. */
    method SaveFetched(cc: string, missing: set<int>, fetch: Fetcher) returns (fetched: set<int>, refused: bool)
      requires Unique(rows)
      modifies this
      ensures Unique(rows) && old(rows) <= rows
      ensures Faithful(fetch) && (forall d :: d in missing ==> !Has(old(rows), cc, d)) ==>
                && !refused
                && (forall d :: d in fetched <==> d in missing && fetch(cc, d).Some?)
                && AreFetched(rows, |old(rows)|, cc, missing, fetch)
                && (forall d :: d in fetched ==> Has(rows, cc, d))
    {
      fetched, refused := {}, false;
      var todo := missing;
      ghost var before := rows;
      while todo != {}
        invariant todo <= missing && Unique(rows) && before <= rows && !refused
        invariant Faithful(fetch) && (forall d :: d in missing ==> !Has(before, cc, d)) ==>
                    && (forall d :: d in fetched <==> d in missing - todo && fetch(cc, d).Some?)
                    && AreFetched(rows, |before|, cc, missing - todo, fetch)
                    && (forall d :: d in fetched ==> Has(rows, cc, d))
        decreases |todo|
      {
        NonEmpty(todo);
        var d :| d in todo;
        todo := todo - {d};
        var rate := fetch(cc, d);
        if rate.Some? {
          var row := Rate("UAH", rate.value.cc, rate.value.rate, rate.value.date, "nbu");
          ghost var rows0 := rows;
          refused := AddRate(row);
          if refused {
            return;
          }
          fetched := fetched + {rate.value.date};
          HasSnoc(rows0, row, cc);
        }
      }
    }

    /** Persist one rate for every day still missing. */
    method SaveFallbacks(cc: string, days: set<int>, rate: real) returns (refused: bool)
      requires Unique(rows)
      modifies this
      ensures Unique(rows) && old(rows) <= rows
      ensures (forall d :: d in days ==> !Has(old(rows), cc, d)) ==>
                && !refused
                && (forall i :: |old(rows)| <= i < |rows| ==>
                      rows[i].date in days && rows[i] == Rate("UAH", cc, rate, rows[i].date, "fallback"))
                && (forall d :: d in days ==> Has(rows, cc, d))
    {
      refused := false;
      var todo := days;
      ghost var before := rows;
      while todo != {}
        invariant todo <= days && Unique(rows) && before <= rows && !refused
        invariant (forall d :: d in days ==> !Has(before, cc, d)) ==>
                    && (forall i :: |before| <= i < |rows| ==>
                          rows[i].date in days - todo && rows[i] == Rate("UAH", cc, rate, rows[i].date, "fallback"))
                    && (forall d :: d in days - todo ==> Has(rows, cc, d))
        decreases |todo|
      {
        NonEmpty(todo);
        var d :| d in todo;
        todo := todo - {d};
        var row := Rate("UAH", cc, rate, d, "fallback");
        ghost var rows0 := rows;
        HasSplit(before, rows, cc, d);
        refused := AddRate(row);
        if refused {
          return;
        }
        HasSnoc(rows0, row, cc);
      }
    }

    /** The body of the loop over currencies. */
    method EnsureCurrency(cc: string, first: int, last: int, all: set<int>, fetch: Fetcher) returns (refused: bool)
      requires Unique(rows) && forall d :: d in all <==> first <= d <= last
      modifies this
      ensures Unique(rows) && old(rows) <= rows
      ensures Faithful(fetch) ==> !refused && Filled(old(rows), rows, cc, first, last, fetch)
    {
      ghost var before := rows;
      var existing := GetExistingDates(cc, first, last);
      var missing := all - existing;
      assert MissingExactly(before, cc, first, last, missing);
      var fetched: set<int>;
      fetched, refused := SaveFetched(cc, missing, fetch);
      if refused {
        return;
      }
      ghost var middle := rows;
      refused := FillRest(cc, first, missing, fetched, before, fetch);
      if Faithful(fetch) {
        assert FilledVia(before, middle, rows, cc, first, missing, fetch);
      }
    }

    /** The fallback phase for one currency. */
    method FillRest(cc: string, first: int, missing: set<int>, fetched: set<int>, ghost before: seq<Rate>, ghost fetch: Fetcher)
      returns (refused: bool)
      requires Unique(rows) && before <= rows
      requires forall d :: d in missing ==> !Has(before, cc, d)
      requires Faithful(fetch) ==>
                 && (forall d :: d in fetched <==> d in missing && fetch(cc, d).Some?)
                 && AreFetched(rows, |before|, cc, missing, fetch)
                 && (forall d :: d in fetched ==> Has(rows, cc, d))
      modifies this
      ensures Unique(rows) && old(rows) <= rows
      ensures Faithful(fetch) ==> !refused && FilledVia(before, old(rows), rows, cc, first, missing, fetch)
    {
      ghost var middle := rows;
      refused := false;
      var stillMissing := missing - fetched;
      StillMissing(before, middle, cc, missing, fetched, fetch);
      ClosestIsArgmin(middle, cc, first);
      if stillMissing != {} {
        var closest := ClosestRate(rows, cc, first);
        if closest.Some? {
          refused := SaveFallbacks(cc, stillMissing, closest.value.rate);
        }
      }
      HasPrefix(middle, rows, cc);
      forall d | Faithful(fetch) && d in missing && ClosestRate(middle, cc, first).Some?
        ensures Has(rows, cc, d)
      {
        assert d in fetched || d in stillMissing;
      }
    }
  }

  // ------------------------------------------------------------------
  // The whole synchronisation
  // ------------------------------------------------------------------

  lemma HasSnoc(rows: seq<Rate>, row: Rate, cc: string)
    ensures forall d :: Has(rows + [row], cc, d) <==> Has(rows, cc, d) || (IsFor(row, cc) && row.date == d)
    ensures HasAny(rows + [row], cc) <==> HasAny(rows, cc) || IsFor(row, cc)
  {
    var all := rows + [row];
    forall d
      ensures Has(all, cc, d) <==> Has(rows, cc, d) || (IsFor(row, cc) && row.date == d)
    {
      if Has(rows, cc, d) {
        var i :| 0 <= i < |rows| && IsFor(rows[i], cc) && rows[i].date == d;
        assert all[i] == rows[i];
      }
      assert all[|rows|] == row;
    }
    if HasAny(rows, cc) {
      var i :| 0 <= i < |rows| && IsFor(rows[i], cc);
      assert all[i] == rows[i];
    }
    assert all[|rows|] == row;
  }

  lemma HasPrefix(shorter: seq<Rate>, longer: seq<Rate>, cc: string)
    requires shorter <= longer
    ensures forall d :: Has(shorter, cc, d) ==> Has(longer, cc, d)
    ensures HasAny(shorter, cc) ==> HasAny(longer, cc)
  {
    forall d | Has(shorter, cc, d)
      ensures Has(longer, cc, d)
    {
      var i :| 0 <= i < |shorter| && IsFor(shorter[i], cc) && shorter[i].date == d;
      assert longer[i] == shorter[i];
    }
    if i :| 0 <= i < |shorter| && IsFor(shorter[i], cc) {
      assert longer[i] == shorter[i];
    }
  }

  /** Days not fetched are still without a row. */
  lemma StillMissing(before: seq<Rate>, middle: seq<Rate>, cc: string, missing: set<int>, fetched: set<int>, fetch: Fetcher)
    requires before <= middle
    requires forall d :: d in missing ==> !Has(before, cc, d)
    requires Faithful(fetch) ==>
               && (forall d :: d in fetched <==> d in missing && fetch(cc, d).Some?)
               && AreFetched(middle, |before|, cc, missing, fetch)
    ensures Faithful(fetch) ==> forall d :: d in missing - fetched ==> !Has(middle, cc, d)
  {
    forall d | d in missing - fetched
      ensures Faithful(fetch) ==> !Has(middle, cc, d)
    {
      HasSplit(before, middle, cc, d);
    }
  }

  /** A row of the longer table is in the shorter one, or was added since. */
  lemma HasSplit(shorter: seq<Rate>, longer: seq<Rate>, cc: string, d: int)
    requires shorter <= longer
    ensures Has(longer, cc, d) <==>
              Has(shorter, cc, d) || exists i :: |shorter| <= i < |longer| && IsFor(longer[i], cc) && longer[i].date == d
  {
    HasPrefix(shorter, longer, cc);
    if i :| 0 <= i < |longer| && IsFor(longer[i], cc) && longer[i].date == d && i < |shorter| {
      assert shorter[i] == longer[i];
    }
  }

  lemma NonEmpty(s: set<int>)
    requires s != {}
    ensures exists d :: d in s
  {
    assert (forall d :: d !in s) ==> s == {};
  }
}
