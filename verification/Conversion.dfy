/** Conversion to USD through the table of daily rates, over real numbers. */
module Conversion {
  import opened Wrappers
  import opened Rates

  datatype Key = Key(cc: string, date: int)
  datatype Entry = Entry(key: Key, rate: real)

  /** `rate_lookup`: a dictionary, in insertion order. */
  type Lookup = seq<Entry>

  predicate KeysDistinct(lookup: Lookup) {
    forall i, k :: 0 <= i < k < |lookup| ==> lookup[i].key != lookup[k].key
  }

  /** `rate_lookup.get(key)` */
  function Get(lookup: Lookup, key: Key): (r: Option<real>)
    ensures r.Some? ==> Entry(key, r.value) in lookup
    ensures r.None? ==> forall i :: 0 <= i < |lookup| ==> lookup[i].key != key
  {
    if lookup == [] then None
    else if lookup[0].key == key then Some(lookup[0].rate)
    else Get(lookup[1..], key)
  }

  /** `rate_lookup[key] = rate`: a known key keeps its place. */
  function Put(lookup: Lookup, key: Key, rate: real): Lookup {
    if lookup == [] then [Entry(key, rate)]
    else if lookup[0].key == key then [Entry(key, rate)] + lookup[1..]
    else [lookup[0]] + Put(lookup[1..], key, rate)
  }

  function EntryOf(row: Rate): Entry {
    Entry(Key(row.to, row.date), row.rate)
  }

  // ------------------------------------------------------------------
  // The lookup of a date-ordered list of rates
  // ------------------------------------------------------------------

  /** `get_rates`: the rows of the range, ordered by date. */
  ghost predicate AreRatesBetween(rows: seq<Rate>, first: int, last: int, rates: seq<Rate>) {
    && (forall i, k :: 0 <= i < k < |rates| ==> rates[i].date <= rates[k].date && !SameKey(rates[i], rates[k]))
    && (forall r :: r in rates <==> r in rows && first <= r.date <= last)
  }

  ghost predicate AllFromUah(rows: seq<Rate>) {
    forall i :: 0 <= i < |rows| ==> rows[i].from == "UAH"
  }

  lemma {:induction false} PutFresh(lookup: Lookup, key: Key, rate: real)
    requires forall i :: 0 <= i < |lookup| ==> lookup[i].key != key
    ensures Put(lookup, key, rate) == lookup + [Entry(key, rate)]
  {
    if lookup != [] {
      PutFresh(lookup[1..], key, rate);
    }
  }

  /** The dictionary keeps the last of several rates for a key; the base currency is no part of the key. */
  function LastRate(rates: seq<Rate>, key: Key): Option<real> {
    if rates == [] then None
    else if EntryOf(rates[|rates| - 1]).key == key then Some(rates[|rates| - 1].rate)
    else LastRate(rates[..|rates| - 1], key)
  }

  lemma {:induction false} LastRateMeans(rates: seq<Rate>, key: Key, i: nat)
    requires i < |rates| && Key(rates[i].to, rates[i].date) == key
    requires forall k :: i < k < |rates| ==> Key(rates[k].to, rates[k].date) != key
    ensures LastRate(rates, key) == Some(rates[i].rate)
    decreases |rates|
  {
    if i < |rates| - 1 {
      LastRateMeans(rates[..|rates| - 1], key, i);
    }
  }

  lemma {:induction false} NoLastRate(rates: seq<Rate>, key: Key)
    ensures LastRate(rates, key).None? <==> forall k :: 0 <= k < |rates| ==> Key(rates[k].to, rates[k].date) != key
    decreases |rates|
  {
    if rates != [] {
      NoLastRate(rates[..|rates| - 1], key);
      if forall k :: 0 <= k < |rates| ==> Key(rates[k].to, rates[k].date) != key {
        assert EntryOf(rates[|rates| - 1]).key == Key(rates[|rates| - 1].to, rates[|rates| - 1].date);
      }
    }
  }

  lemma {:induction false} GetPut(lookup: Lookup, key: Key, rate: real, other: Key)
    ensures Get(Put(lookup, key, rate), other) == if other == key then Some(rate) else Get(lookup, other)
  {
    if lookup != [] && lookup[0].key != key {
      GetPut(lookup[1..], key, rate, other);
    }
  }

  lemma {:induction false} PutKeepsKeys(lookup: Lookup, key: Key, rate: real)
    requires KeysDistinct(lookup)
    ensures KeysDistinct(Put(lookup, key, rate))
    ensures forall e :: e in Put(lookup, key, rate) ==> e.key == key || e in lookup
  {
    if lookup != [] && lookup[0].key != key {
      PutKeepsKeys(lookup[1..], key, rate);
      var rest := Put(lookup[1..], key, rate);
      forall i | 0 <= i < |rest| ensures rest[i].key != lookup[0].key {
        assert rest[i] in rest;
        if rest[i].key != key {
          var k :| 0 <= k < |lookup[1..]| && lookup[1..][k] == rest[i];
          assert lookup[k + 1] == rest[i];
        }
      }
    }
  }

  ghost predicate OneBase(rates: seq<Rate>) {
    AllFromUah(rates) && forall i, k :: 0 <= i < k < |rates| ==> !SameKey(rates[i], rates[k])
  }

  /** The last rate of each key; with one base currency no key repeats, and the rates are listed in their order. */
  method BuildLookup(rates: seq<Rate>) returns (lookup: Lookup)
    ensures KeysDistinct(lookup)
    ensures forall key :: Get(lookup, key) == LastRate(rates, key)
    ensures OneBase(rates) ==> |lookup| == |rates| && forall i :: 0 <= i < |rates| ==> lookup[i] == EntryOf(rates[i])
  {
    lookup := [];
    for i := 0 to |rates|
      invariant KeysDistinct(lookup)
      invariant forall key :: Get(lookup, key) == LastRate(rates[..i], key)
      invariant OneBase(rates) ==> |lookup| == i && forall k :: 0 <= k < i ==> lookup[k] == EntryOf(rates[k])
    {
      var key, rate := Key(rates[i].to, rates[i].date), rates[i].rate;
      assert rates[..i + 1][..i] == rates[..i];
      forall other ensures Get(Put(lookup, key, rate), other) == LastRate(rates[..i + 1], other) {
        GetPut(lookup, key, rate, other);
      }
      PutKeepsKeys(lookup, key, rate);
      if forall k :: 0 <= k < |lookup| ==> lookup[k].key != key {
        PutFresh(lookup, key, rate);
      }
      lookup := Put(lookup, key, rate);
    }
    assert rates[..|rates|] == rates;
  }

  // ------------------------------------------------------------------
  // The fallback
  // ------------------------------------------------------------------

  /** Nearer to the target, or as near and not later in the list. */
  predicate Precedes(lookup: Lookup, target: int, n: nat, i: nat)
    requires n < |lookup| && i < |lookup|
  {
    var a, b := Distance(lookup[n].key.date, target), Distance(lookup[i].key.date, target);
    a < b || (a == b && n <= i)
  }

  /** `min(currency_rates, key=distance)`: where the first entry of minimum distance is. */
  function Nearest(lookup: Lookup, cc: string, target: int): (r: Option<nat>)
    ensures r.Some? ==> r.value < |lookup| && lookup[r.value].key.cc == cc
    ensures r.Some? ==> forall i :: 0 <= i < |lookup| && lookup[i].key.cc == cc ==> Precedes(lookup, target, r.value, i)
    ensures r.None? ==> forall i :: 0 <= i < |lookup| ==> lookup[i].key.cc != cc
  {
    if lookup == [] then None
    else
      var front, last := lookup[..|lookup| - 1], lookup[|lookup| - 1];
      var rest := Nearest(front, cc, target);
      assert rest.Some? ==> forall i :: 0 <= i < |front| && lookup[i].key.cc == cc ==> Precedes(front, target, rest.value, i);
      if last.key.cc == cc &&
         (rest.None? || Distance(last.key.date, target) < Distance(lookup[rest.value].key.date, target))
      then Some(|lookup| - 1) else rest
  }

  /** `_get_fallback_rate` */
  function FallbackRate(lookup: Lookup, cc: string, target: int): Option<real> {
    var n := Nearest(lookup, cc, target);
    if n.Some? then Some(lookup[n.value].rate) else None
  }

  /** The lookup holds exactly these rows, listed as `rates` in order of their dates. */
  ghost predicate Lists(lookup: Lookup, rates: seq<Rate>, rows: seq<Rate>) {
    && |lookup| == |rates| && (forall i :: 0 <= i < |rates| ==> lookup[i] == EntryOf(rates[i]))
    && (forall i, k :: 0 <= i < k < |rates| ==> rates[i].date <= rates[k].date)
    && (forall r :: r in rates <==> r in rows)
  }

  /** In a date-ordered list, the first of the nearest entries is the earliest of the nearest rows. */
  lemma {:induction false} FirstMinIsClosest(rows: seq<Rate>, rates: seq<Rate>, lookup: Lookup, cc: string, target: int, n: nat)
    requires AllFromUah(rows) && Lists(lookup, rates, rows)
    requires n < |lookup| && lookup[n].key.cc == cc
    requires forall i :: 0 <= i < |lookup| && lookup[i].key.cc == cc ==> Precedes(lookup, target, n, i)
    ensures IsClosest(rows, cc, target, rates[n])
  {
    assert rates[n] in rows;
    forall i | 0 <= i < |rows| && IsFor(rows[i], cc)
      ensures Distance(rates[n].date, target) < Distance(rows[i].date, target)
              || (Distance(rates[n].date, target) == Distance(rows[i].date, target) && rates[n].date <= rows[i].date)
    {
      assert rows[i] in rates;
      var k :| 0 <= k < |rates| && rates[k] == rows[i];
      assert lookup[k] == EntryOf(rates[k]) && Precedes(lookup, target, n, k);
    }
  }

  /** The scan of the dictionary and the two database queries choose the same rate. */
  lemma {:induction false} FallbackRefinesClosest(rows: seq<Rate>, rates: seq<Rate>, lookup: Lookup, cc: string, target: int)
    requires Unique(rows) && AllFromUah(rows) && Lists(lookup, rates, rows)
    ensures FallbackRate(lookup, cc, target) ==
            var closest := ClosestRate(rows, cc, target); if closest.Some? then Some(closest.value.rate) else None
  {
    ClosestIsArgmin(rows, cc, target);
    var nearest := Nearest(lookup, cc, target);
    if nearest.Some? {
      FirstMinIsClosest(rows, rates, lookup, cc, target, nearest.value);
      ClosestMeansAny(rows, cc, target, rates[nearest.value]);
      ClosestUnique(rows, cc, target, rates[nearest.value], ClosestRate(rows, cc, target).value);
    } else {
      NothingToList(rows, rates, lookup, cc);
    }
  }

  lemma ClosestMeansAny(rows: seq<Rate>, cc: string, target: int, row: Rate)
    requires IsClosest(rows, cc, target, row)
    ensures HasAny(rows, cc)
  {
    var i :| 0 <= i < |rows| && rows[i] == row;
  }

  lemma {:induction false} NothingToList(rows: seq<Rate>, rates: seq<Rate>, lookup: Lookup, cc: string)
    requires Lists(lookup, rates, rows) && forall i :: 0 <= i < |lookup| ==> lookup[i].key.cc != cc
    ensures !HasAny(rows, cc)
  {
    forall i | 0 <= i < |rows|
      ensures !IsFor(rows[i], cc)
    {
      assert rows[i] in rates;
      var k :| 0 <= k < |rates| && rates[k] == rows[i];
      assert lookup[k].key.cc == rows[i].to;
    }
  }

  // ------------------------------------------------------------------
  // Conversion
  // ------------------------------------------------------------------

  function RateOn(lookup: Lookup, cc: string, date: int): Option<real> {
    var exact := Get(lookup, Key(cc, date));
    if exact.Some? then exact else FallbackRate(lookup, cc, date)
  }

  /** A rate that is missing or zero counts as no rate. */
  predicate Usable(rate: Option<real>) {
    rate.Some? && rate.value != 0.0
  }

  /** `_convert_to_usd` */
  function ConvertToUsd(cc: string, date: int, cents: int, lookup: Lookup): real {
    if cc == "USD" then cents as real
    else
      var usd := RateOn(lookup, "USD", date);
      if cc == "UAH" then (if Usable(usd) then cents as real / usd.value else 0.0)
      else
        var rate := RateOn(lookup, cc, date);
        if !Usable(rate) || !Usable(usd) then 0.0 else cents as real * rate.value / usd.value
  }

  /**
   The rate that counts for a currency on a day: its own one, or that of the
   nearest day, the first of equally near ones, or none when it has no rate.
   */
  predicate InUse(lookup: Lookup, cc: string, date: int, rate: Option<real>) {
    && (forall i :: 0 <= i < |lookup| && lookup[i].key == Key(cc, date) ==> rate == Some(lookup[i].rate))
    && (rate.Some? ==> exists n :: 0 <= n < |lookup| && IsNearest(lookup, cc, date, n) && lookup[n].rate == rate.value)
    && (rate.None? ==> forall i :: 0 <= i < |lookup| ==> lookup[i].key.cc != cc)
  }

  predicate IsNearest(lookup: Lookup, cc: string, date: int, n: nat)
    requires n < |lookup|
  {
    && lookup[n].key.cc == cc
    && forall i :: 0 <= i < |lookup| && lookup[i].key.cc == cc ==>
         var a, b := lookup[n].key.date - date, lookup[i].key.date - date;
         var near, far := if a < 0 then -a else a, if b < 0 then -b else b;
         near < far || (near == far && n <= i)
  }

  lemma OwnIsNearest(lookup: Lookup, cc: string, date: int, n: nat)
    requires KeysDistinct(lookup) && n < |lookup| && lookup[n].key == Key(cc, date)
    ensures IsNearest(lookup, cc, date, n)
  {
    forall i | 0 <= i < |lookup| && lookup[i].key.cc == cc && i != n ensures lookup[i].key.date != date {
      assert lookup[i].key != lookup[n].key;
    }
  }

  lemma RateInUse(lookup: Lookup, cc: string, date: int)
    requires KeysDistinct(lookup)
    ensures InUse(lookup, cc, date, RateOn(lookup, cc, date))
  {
    var exact, nearest := Get(lookup, Key(cc, date)), Nearest(lookup, cc, date);
    if exact.Some? {
      var n :| 0 <= n < |lookup| && lookup[n] == Entry(Key(cc, date), exact.value);
      OwnIsNearest(lookup, cc, date, n);
    } else if nearest.Some? {
      NearestIs(lookup, cc, date, nearest.value);
    }
  }

  lemma NearestIs(lookup: Lookup, cc: string, date: int, n: nat)
    requires n < |lookup| && Nearest(lookup, cc, date) == Some(n)
    ensures IsNearest(lookup, cc, date, n)
  {
    forall i | 0 <= i < |lookup| && lookup[i].key.cc == cc ensures Precedes(lookup, date, n, i) {
    }
  }

  /** A USD amount is itself; any other is the amount times its rate in use, divided by that of USD, or 0 without both. */
  lemma ConvertMeans(lookup: Lookup, cc: string, date: int, cents: int, rate: Option<real>, usd: Option<real>)
    requires KeysDistinct(lookup) && InUse(lookup, cc, date, rate) && InUse(lookup, "USD", date, usd)
    ensures var r := ConvertToUsd(cc, date, cents, lookup);
            && (cc == "USD" ==> r == cents as real)
            && (cc != "USD" && (usd == None || usd == Some(0.0)) ==> r == 0.0)
            && (cc != "USD" && cc != "UAH" && (rate == None || rate == Some(0.0)) ==> r == 0.0)
            && (cc == "UAH" && usd.Some? && usd.value != 0.0 ==> r * usd.value == cents as real)
            && (cc != "USD" && cc != "UAH" && usd.Some? && usd.value != 0.0 && rate.Some? && rate.value != 0.0 ==>
                  r * usd.value == cents as real * rate.value)
  {
    OneInUse(lookup, "USD", date, usd);
    OneInUse(lookup, cc, date, rate);
  }

  /** There is only one rate in use, and it is the one the conversion takes. */
  lemma OneInUse(lookup: Lookup, cc: string, date: int, rate: Option<real>)
    requires KeysDistinct(lookup) && InUse(lookup, cc, date, rate)
    ensures rate == RateOn(lookup, cc, date)
  {
    RateInUse(lookup, cc, date);
    var own := RateOn(lookup, cc, date);
    if own.Some? && rate.Some? {
      var n :| 0 <= n < |lookup| && IsNearest(lookup, cc, date, n) && lookup[n].rate == rate.value;
      var m :| 0 <= m < |lookup| && IsNearest(lookup, cc, date, m) && lookup[m].rate == own.value;
      assert n == m;
    }
  }

  /** What one cent of a currency is worth on a day. */
  function Price(cc: string, date: int, lookup: Lookup): real {
    ConvertToUsd(cc, date, 1, lookup)
  }

  lemma ConvertIsLinear(cc: string, date: int, cents: int, lookup: Lookup)
    ensures ConvertToUsd(cc, date, cents, lookup) == cents as real * Price(cc, date, lookup)
  {
    var usd, rate := RateOn(lookup, "USD", date), RateOn(lookup, cc, date);
    if cc != "USD" && Usable(usd) {
      var x, u := cents as real, usd.value;
      assert x / u == x * (1.0 / u);
      if Usable(rate) {
        assert x * rate.value / u == x * (rate.value / u);
      }
    }
  }

  // ------------------------------------------------------------------
  // After gap filling the day's own rates are used
  // ------------------------------------------------------------------

  /** The day's own rate, as stored. */
  ghost predicate OwnRate(rows: seq<Rate>, cc: string, date: int, rate: real) {
    exists i :: 0 <= i < |rows| && IsFor(rows[i], cc) && rows[i].date == date && rows[i].rate == rate
  }

  lemma {:induction false} LookupHasOwn(rows: seq<Rate>, first: int, last: int, rates: seq<Rate>, lookup: Lookup, cc: string, date: int)
    requires AllFromUah(rows) && AreRatesBetween(rows, first, last, rates)
    requires |lookup| == |rates| && forall i :: 0 <= i < |rates| ==> lookup[i] == EntryOf(rates[i])
    requires first <= date <= last && Has(rows, cc, date)
    ensures Get(lookup, Key(cc, date)).Some? && OwnRate(rows, cc, date, Get(lookup, Key(cc, date)).value)
  {
    var i :| 0 <= i < |rows| && IsFor(rows[i], cc) && rows[i].date == date;
    assert rows[i] in rows && rows[i] in rates;
    var k :| 0 <= k < |rates| && rates[k] == rows[i];
    assert lookup[k].key == Key(cc, date);
    var rate := Get(lookup, Key(cc, date)).value;
    var j :| 0 <= j < |lookup| && lookup[j] == Entry(Key(cc, date), rate);
    assert rates[j] in rows;
    var n :| 0 <= n < |rows| && rows[n] == rates[j];
    assert rows[n].from == "UAH";
  }

  /** An amount at a rate, in USD; a zero rate gives nothing. */
  function Quote(cents: int, rate: real, usd: real): real {
    if rate == 0.0 || usd == 0.0 then 0.0 else cents as real * rate / usd
  }

  lemma UnitQuote(cents: int, usd: real)
    ensures usd != 0.0 ==> Quote(cents, 1.0, usd) == cents as real / usd
  {
    assert cents as real * 1.0 == cents as real;
  }

  lemma ConvertUah(lookup: Lookup, date: int, cents: int)
    requires Get(lookup, Key("USD", date)).Some?
    ensures ConvertToUsd("UAH", date, cents, lookup) == Quote(cents, 1.0, Get(lookup, Key("USD", date)).value)
  {
    UnitQuote(cents, Get(lookup, Key("USD", date)).value);
  }

  lemma ConvertForeign(lookup: Lookup, cc: string, date: int, cents: int)
    requires cc != "USD" && cc != "UAH" && Get(lookup, Key("USD", date)).Some? && Get(lookup, Key(cc, date)).Some?
    ensures ConvertToUsd(cc, date, cents, lookup) ==
            Quote(cents, Get(lookup, Key(cc, date)).value, Get(lookup, Key("USD", date)).value)
  {
    var usd, rate := Get(lookup, Key("USD", date)).value, Get(lookup, Key(cc, date)).value;
    assert RateOn(lookup, "USD", date) == Some(usd) && RateOn(lookup, cc, date) == Some(rate);
  }

  /** With both of the day's rates in the dictionary, the conversion uses just those. */
  lemma ConvertWithOwn(lookup: Lookup, cc: string, date: int, cents: int)
    requires cc != "USD" && Get(lookup, Key("USD", date)).Some?
    requires cc != "UAH" ==> Get(lookup, Key(cc, date)).Some?
    ensures ConvertToUsd(cc, date, cents, lookup) ==
            Quote(cents, if cc == "UAH" then 1.0 else Get(lookup, Key(cc, date)).value, Get(lookup, Key("USD", date)).value)
  {
    if cc == "UAH" {
      ConvertUah(lookup, date, cents);
    } else {
      ConvertForeign(lookup, cc, date, cents);
    }
  }

  /** UAH itself is worth one UAH on every day. */
  ghost predicate DayRate(rows: seq<Rate>, cc: string, date: int, rate: real) {
    if cc == "UAH" then rate == 1.0 else OwnRate(rows, cc, date, rate)
  }

  /**
   Once the range is filled, an amount in a currency that has a rate is
   converted with its own day's rates of that currency and of USD; an amount in
   USD is taken as it is.
   */
  lemma {:induction false} ConvertedOnItsOwnDay(rows: seq<Rate>, first: int, last: int, rates: seq<Rate>, lookup: Lookup,
                                                cc: string, date: int, cents: int)
    requires AllFromUah(rows) && AreRatesBetween(rows, first, last, rates)
    requires |lookup| == |rates| && forall i :: 0 <= i < |rates| ==> lookup[i] == EntryOf(rates[i])
    requires first <= date <= last
    requires cc != "USD" ==> Has(rows, "USD", date) && (cc == "UAH" || Has(rows, cc, date))
    ensures cc == "USD" ==> ConvertToUsd(cc, date, cents, lookup) == cents as real
    ensures cc != "USD" ==>
              exists rate, usd :: DayRate(rows, cc, date, rate) && DayRate(rows, "USD", date, usd) &&
                ConvertToUsd(cc, date, cents, lookup) == Quote(cents, rate, usd)
  {
    if cc != "USD" {
      LookupHasOwn(rows, first, last, rates, lookup, "USD", date);
      if cc != "UAH" {
        LookupHasOwn(rows, first, last, rates, lookup, cc, date);
      }
      var usd := Get(lookup, Key("USD", date)).value;
      var rate := if cc == "UAH" then 1.0 else Get(lookup, Key(cc, date)).value;
      assert DayRate(rows, cc, date, rate) && DayRate(rows, "USD", date, usd);
      ConvertWithOwn(lookup, cc, date, cents);
    }
  }
}
