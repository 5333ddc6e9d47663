/** Synchronising every currency over a range of days, and doing it again. */
module RateSync {
  import opened Wrappers
  import opened Rates

  /** The table after each currency in turn; UAH, the base, is skipped. */
  ghost predicate Synced(tables: seq<seq<Rate>>, names: seq<string>, first: int, last: int, fetch: Fetcher) {
    && |tables| == |names| + 1
    && (forall i :: 0 <= i < |names| ==>
          if names[i] == "UAH" then tables[i + 1] == tables[i]
          else Filled(tables[i], tables[i + 1], names[i], first, last, fetch))
  }

  predicate Distinct(names: seq<string>) {
    forall i, k :: 0 <= i < k < |names| ==> names[i] != names[k]
  }

  /** `ensure_exchange_rates`; a refused insert ends it with an error, keeping what was saved. */
  method EnsureExchangeRates(store: RateStore, names: seq<string>, first: int, last: int, fetch: Fetcher)
    returns (refused: bool, ghost tables: seq<seq<Rate>>)
    requires Unique(store.rows)
    modifies store
    ensures Unique(store.rows) && old(store.rows) <= store.rows
    ensures Faithful(fetch) ==>
              && !refused && Synced(tables, names, first, last, fetch)
              && tables[0] == old(store.rows) && tables[|names|] == store.rows
  {
    var all := {};
    var current := first;
    while current <= last
      invariant first <= current && (current <= last + 1 || current == first)
      invariant forall d :: d in all <==> first <= d < current
    {
      all := all + {current};
      current := current + 1;
    }
    refused, tables := false, [store.rows];
    for i := 0 to |names|
      invariant !refused && Unique(store.rows) && old(store.rows) <= store.rows
      invariant |tables| == i + 1 && tables[0] == old(store.rows) && tables[i] == store.rows
      invariant Faithful(fetch) ==> Synced(tables, names[..i], first, last, fetch)
    {
      if names[i] != "UAH" {
        refused := store.EnsureCurrency(names[i], first, last, all, fetch);
        if refused {
          return;
        }
      }
      tables := tables + [store.rows];
    }
    assert names[..|names|] == names;
  }

  // ------------------------------------------------------------------
  // Every day is covered
  // ------------------------------------------------------------------

  ghost predicate Complete(rows: seq<Rate>, cc: string, first: int, last: int) {
    HasAny(rows, cc) ==> forall d :: first <= d <= last ==> Has(rows, cc, d)
  }

  /** Filling one currency only adds rows, and only rows of that currency. */
  lemma FilledFrame(before: seq<Rate>, after: seq<Rate>, cc: string, first: int, last: int, fetch: Fetcher, other: string)
    requires Filled(before, after, cc, first, last, fetch)
    ensures before <= after
    ensures forall i :: |before| <= i < |after| ==> IsFor(after[i], cc)
    ensures other != cc ==> (forall d :: Has(after, other, d) <==> Has(before, other, d)) && (HasAny(after, other) <==> HasAny(before, other))
  {
    var missing, middle :|
      MissingExactly(before, cc, first, last, missing) && FilledVia(before, middle, after, cc, first, missing, fetch);
    forall i | |before| <= i < |after|
      ensures IsFor(after[i], cc)
    {
      if i < |middle| {
        assert after[i] == middle[i];
      }
    }
    forall d
      ensures Has(after, other, d) && other != cc ==> Has(before, other, d)
    {
      HasSplit(before, after, other, d);
    }
    HasPrefix(before, after, other);
    if other != cc && HasAny(after, other) {
      var i :| 0 <= i < |after| && IsFor(after[i], other);
      assert before[i] == after[i];
    }
  }

  ghost predicate SilentFor(fetch: Fetcher, cc: string, first: int, last: int) {
    forall d :: first <= d <= last ==> fetch(cc, d).None?
  }

  lemma FilledCompletes(before: seq<Rate>, after: seq<Rate>, cc: string, first: int, last: int, fetch: Fetcher)
    requires Filled(before, after, cc, first, last, fetch)
    ensures Complete(after, cc, first, last)
    ensures !HasAny(after, cc) ==> SilentFor(fetch, cc, first, last)
  {
    var missing, middle :|
      MissingExactly(before, cc, first, last, missing) && FilledVia(before, middle, after, cc, first, missing, fetch);
    ClosestIsArgmin(middle, cc, first);
    HasPrefix(before, middle, cc);
    HasPrefix(middle, after, cc);
    forall d | first <= d <= last
      ensures HasAny(after, cc) ==> Has(after, cc, d)
      ensures !HasAny(after, cc) ==> fetch(cc, d).None?
    {
      HasMeansAny(before, cc, d);
      HasMeansAny(middle, cc, d);
    }
  }

  lemma HasMeansAny(rows: seq<Rate>, cc: string, d: int)
    ensures Has(rows, cc, d) ==> HasAny(rows, cc)
  {
  }

  lemma {:induction false} LaterTables(tables: seq<seq<Rate>>, names: seq<string>, first: int, last: int, fetch: Fetcher, i: nat, k: nat, cc: string)
    requires Synced(tables, names, first, last, fetch) && i <= k <= |names|
    requires forall j :: i <= j < k ==> names[j] != cc
    ensures tables[i] <= tables[k]
    ensures (forall d :: Has(tables[k], cc, d) <==> Has(tables[i], cc, d)) && (HasAny(tables[k], cc) <==> HasAny(tables[i], cc))
    decreases k - i
  {
    if i < k {
      LaterTables(tables, names, first, last, fetch, i, k - 1, cc);
      if names[k - 1] != "UAH" {
        FilledFrame(tables[k - 1], tables[k], names[k - 1], first, last, fetch, cc);
      }
    }
  }

  /**
   After a synchronisation, each day of the range has a rate for each foreign
   currency that has any rate at all; one that has none got no answer for any day.
   */
  lemma SyncCompletes(tables: seq<seq<Rate>>, names: seq<string>, first: int, last: int, fetch: Fetcher, i: nat)
    requires Synced(tables, names, first, last, fetch) && Distinct(names) && i < |names| && names[i] != "UAH"
    ensures Complete(tables[|names|], names[i], first, last)
    ensures !HasAny(tables[|names|], names[i]) ==> SilentFor(fetch, names[i], first, last)
  {
    FilledCompletes(tables[i], tables[i + 1], names[i], first, last, fetch);
    LaterTables(tables, names, first, last, fetch, i + 1, |names|, names[i]);
  }

  // ------------------------------------------------------------------
  // Doing it again
  // ------------------------------------------------------------------

  lemma FetchGrows(middle: seq<Rate>, k: nat, cc: string, missing: set<int>, fetch: Fetcher)
    requires AreFetched(middle, k, cc, missing, fetch) && k < |middle|
    ensures exists d :: d in missing && fetch(cc, d).Some?
  {
    assert middle[k].date in missing;
  }

  lemma FallbackGrows(after: seq<Rate>, k: nat, cc: string, missing: set<int>, fetch: Fetcher, rate: real)
    requires AreFallbacks(after, k, cc, missing, fetch, rate) && k < |after|
    ensures exists d :: d in missing
  {
    assert after[k].date in missing;
  }

  lemma FilledIdle(before: seq<Rate>, after: seq<Rate>, cc: string, first: int, last: int, fetch: Fetcher)
    requires Filled(before, after, cc, first, last, fetch) && Complete(before, cc, first, last)
    requires !HasAny(before, cc) ==> SilentFor(fetch, cc, first, last)
    ensures after == before
  {
    var missing, middle :|
      MissingExactly(before, cc, first, last, missing) && FilledVia(before, middle, after, cc, first, missing, fetch);
    if |middle| > |before| {
      FetchGrows(middle, |before|, cc, missing, fetch);
    }
    assert middle == before;
    ClosestIsArgmin(middle, cc, first);
    if |after| > |middle| {
      FallbackGrows(after, |middle|, cc, missing, fetch, ClosestRate(middle, cc, first).value.rate);
    }
  }

  lemma {:induction false} IdleChain(tables: seq<seq<Rate>>, names: seq<string>, first: int, last: int, fetch: Fetcher, k: nat)
    requires Synced(tables, names, first, last, fetch) && k <= |names|
    requires forall i :: 0 <= i < |names| && names[i] != "UAH" ==>
               && Complete(tables[0], names[i], first, last)
               && (!HasAny(tables[0], names[i]) ==> SilentFor(fetch, names[i], first, last))
    ensures tables[k] == tables[0]
  {
    if k > 0 {
      IdleChain(tables, names, first, last, fetch, k - 1);
      if names[k - 1] != "UAH" {
        FilledIdle(tables[k - 1], tables[k], names[k - 1], first, last, fetch);
      }
    }
  }

  /**
   A second synchronisation of the same range inserts nothing exactly when the
   client again has no answer, on any day, for a foreign currency without rates.
   */
  lemma SecondSyncIdle(one: seq<seq<Rate>>, two: seq<seq<Rate>>, names: seq<string>, first: int, last: int,
                       fetch: Fetcher, fetchAgain: Fetcher)
    requires Distinct(names) && Synced(one, names, first, last, fetch) && Synced(two, names, first, last, fetchAgain)
    requires two[0] == one[|names|]
    ensures two[|names|] == two[0] <==>
            forall i :: 0 <= i < |names| && names[i] != "UAH" && !HasAny(two[0], names[i]) ==>
              SilentFor(fetchAgain, names[i], first, last)
  {
    forall i | 0 <= i < |names| && names[i] != "UAH"
      ensures Complete(two[0], names[i], first, last)
      ensures two[|names|] == two[0] && !HasAny(two[0], names[i]) ==> SilentFor(fetchAgain, names[i], first, last)
    {
      SyncCompletes(one, names, first, last, fetch, i);
      SyncCompletes(two, names, first, last, fetchAgain, i);
    }
    if forall i :: 0 <= i < |names| && names[i] != "UAH" && !HasAny(two[0], names[i]) ==> SilentFor(fetchAgain, names[i], first, last) {
      IdleChain(two, names, first, last, fetchAgain, |names|);
    }
  }

  /** So a client that answers as it did before never makes the second run insert anything. */
  lemma SameAnswersIdle(one: seq<seq<Rate>>, two: seq<seq<Rate>>, names: seq<string>, first: int, last: int, fetch: Fetcher)
    requires Distinct(names) && Synced(one, names, first, last, fetch) && Synced(two, names, first, last, fetch)
    requires two[0] == one[|names|]
    ensures two[|names|] == two[0]
  {
    forall i | 0 <= i < |names| && names[i] != "UAH" && !HasAny(two[0], names[i])
      ensures SilentFor(fetch, names[i], first, last)
    {
      SyncCompletes(one, names, first, last, fetch, i);
    }
    SecondSyncIdle(one, two, names, first, last, fetch, fetch);
  }

  // ------------------------------------------------------------------
  // Which rate a day is filled with
  // ------------------------------------------------------------------

  /** Day d got the rate closest to the start, which is the one closest to d exactly when nothing lies between. */
  ghost predicate FilledFromStart(middle: seq<Rate>, after: seq<Rate>, cc: string, first: int, d: int) {
    ClosestRate(middle, cc, first).Some? &&
    var c := ClosestRate(middle, cc, first).value;
    && Rate("UAH", cc, c.rate, d, "fallback") in after
    && (IsClosest(middle, cc, d, c) <==> NoneBetween(middle, cc, c.date, 2 * d - c.date))
  }

  lemma NotInMiddle(before: seq<Rate>, middle: seq<Rate>, cc: string, missing: set<int>, fetch: Fetcher, d: int)
    requires before <= middle && AreFetched(middle, |before|, cc, missing, fetch)
    requires !Has(before, cc, d) && fetch(cc, d).None?
    ensures !Has(middle, cc, d)
  {
    forall i | 0 <= i < |middle| ensures !(IsFor(middle[i], cc) && middle[i].date == d) {
      assert i < |before| ==> before[i] == middle[i];
    }
  }

  lemma DayFilledFromStart(before: seq<Rate>, middle: seq<Rate>, after: seq<Rate>, cc: string, first: int, last: int,
                           missing: set<int>, fetch: Fetcher, d: int)
    requires MissingExactly(before, cc, first, last, missing) && FilledVia(before, middle, after, cc, first, missing, fetch)
    requires d in missing && fetch(cc, d).None? && HasAny(middle, cc)
    ensures FilledFromStart(middle, after, cc, first, d)
  {
    ClosestIsArgmin(middle, cc, first);
    ClosestToStartIff(middle, cc, first, d);
    NotInMiddle(before, middle, cc, missing, fetch, d);
    HasSplit(middle, after, cc, d);
    var i :| |middle| <= i < |after| && IsFor(after[i], cc) && after[i].date == d;
    assert after[i] in after;
  }

  /** After filling a currency, this holds of every missing day that could not be fetched. */
  lemma FallbackIsClosestIff(before: seq<Rate>, after: seq<Rate>, cc: string, first: int, last: int, fetch: Fetcher)
    requires Filled(before, after, cc, first, last, fetch)
    ensures exists missing, middle ::
              && MissingExactly(before, cc, first, last, missing) && FilledVia(before, middle, after, cc, first, missing, fetch)
              && forall d :: d in missing && fetch(cc, d).None? && HasAny(middle, cc) ==> FilledFromStart(middle, after, cc, first, d)
  {
    var missing, middle :|
      MissingExactly(before, cc, first, last, missing) && FilledVia(before, middle, after, cc, first, missing, fetch);
    forall d | d in missing && fetch(cc, d).None? && HasAny(middle, cc)
      ensures FilledFromStart(middle, after, cc, first, d)
    {
      DayFilledFromStart(before, middle, after, cc, first, last, missing, fetch, d);
    }
  }

  // ------------------------------------------------------------------
  // What a day ends up with
  // ------------------------------------------------------------------

  /** A day that had a rate gets no other; a fetched rate is stored as it came; a day left over gets a fallback row. */
  lemma DayOutcome(before: seq<Rate>, after: seq<Rate>, cc: string, first: int, last: int, fetch: Fetcher, d: int)
    requires Filled(before, after, cc, first, last, fetch) && first <= d <= last
    ensures Has(before, cc, d) ==> forall i :: |before| <= i < |after| ==> after[i].date != d
    ensures !Has(before, cc, d) && fetch(cc, d).Some? ==> Rate("UAH", cc, fetch(cc, d).value.rate, d, "nbu") in after
    ensures !Has(before, cc, d) && fetch(cc, d).None? && HasAny(after, cc) ==>
              exists rate :: Rate("UAH", cc, rate, d, "fallback") in after
  {
    var missing: set<int>, middle: seq<Rate> :|
      MissingExactly(before, cc, first, last, missing) && FilledVia(before, middle, after, cc, first, missing, fetch);
    forall i | |before| <= i < |after| ensures after[i].date in missing {
      if i < |middle| {
        assert middle[i] == after[i];
      }
    }
    if d in missing && fetch(cc, d).Some? {
      HasSplit(before, middle, cc, d);
      var i :| |before| <= i < |middle| && IsFor(middle[i], cc) && middle[i].date == d;
      assert after[i] == middle[i];
    } else if d in missing && HasAny(after, cc) {
      FilledCompletes(before, after, cc, first, last, fetch);
      NotInMiddle(before, middle, cc, missing, fetch, d);
      HasSplit(middle, after, cc, d);
      var i :| |middle| <= i < |after| && IsFor(after[i], cc) && after[i].date == d;
      assert after[i] in after;
    }
  }

  /** So the client's answer for a missing day of a foreign currency is in the table in the end. */
  lemma FetchedIsStored(tables: seq<seq<Rate>>, names: seq<string>, first: int, last: int, fetch: Fetcher, i: nat, d: int)
    requires Synced(tables, names, first, last, fetch) && Distinct(names) && i < |names| && names[i] != "UAH"
    requires first <= d <= last && !Has(tables[0], names[i], d) && fetch(names[i], d).Some?
    ensures Rate("UAH", names[i], fetch(names[i], d).value.rate, d, "nbu") in tables[|names|]
  {
    var row := Rate("UAH", names[i], fetch(names[i], d).value.rate, d, "nbu");
    LaterTables(tables, names, first, last, fetch, 0, i, names[i]);
    DayOutcome(tables[i], tables[i + 1], names[i], first, last, fetch, d);
    LaterTables(tables, names, first, last, fetch, i + 1, |names|, names[i]);
    var k :| 0 <= k < |tables[i + 1]| && tables[i + 1][k] == row;
    assert tables[|names|][k] == row;
  }

  const Known := [Rate("UAH", "USD", 40.0, 0, "nbu"), Rate("UAH", "USD", 44.0, 4, "nbu")]
  const Added := [Rate("UAH", "USD", 40.0, 1, "fallback"), Rate("UAH", "USD", 40.0, 2, "fallback"), Rate("UAH", "USD", 40.0, 3, "fallback")]
  const Silent: Fetcher := (cc, d) => None

  lemma KnownDays()
    ensures MissingExactly(Known, "USD", 0, 4, {1, 2, 3})
  {
    assert IsFor(Known[0], "USD") && IsFor(Known[1], "USD");
  }

  lemma ClosestKnown()
    ensures ClosestRate(Known, "USD", 0) == Some(Known[0])
  {
    assert IsFor(Known[0], "USD") && IsFor(Known[1], "USD");
    ClosestIsArgmin(Known, "USD", 0);
    assert IsClosest(Known, "USD", 0, Known[0]);
    ClosestUnique(Known, "USD", 0, Known[0], ClosestRate(Known, "USD", 0).value);
  }

  /**
   The fallback is the rate closest to the start of the range, not to the day
   it fills: here day 3 gets day 0's rate although day 4 has one.
   */
  lemma FallbackIgnoresTheDay()
    ensures Filled(Known, Known + Added, "USD", 0, 4, Silent)
    ensures !IsClosest(Known, "USD", 3, Known[0])
  {
    KnownDays();
    ClosestKnown();
    var after := Known + Added;
    assert after[2] == Added[0] && after[3] == Added[1] && after[4] == Added[2];
    assert Known <= Known && AreFetched(Known, 2, "USD", {1, 2, 3}, Silent);
    assert Has(after, "USD", 1) && Has(after, "USD", 2) && Has(after, "USD", 3);
    assert FilledVia(Known, Known, after, "USD", 0, {1, 2, 3}, Silent);
    assert IsFor(Known[1], "USD") && Distance(Known[1].date, 3) == 1 && Distance(Known[0].date, 3) == 3;
  }
}
