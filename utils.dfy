/**
  The background jobs and helpers of utils.py: the exchange-rate table and its
  refresh from an external service, the server-side currency converter, the
  symbol placement of amounts, the hourly reminder sweep and the daily re-arm
  of reminders. The HTTP responses are a parameter (`FetchResult`), the clock
  is the parameter `now`, and the emails the sweep sends are returned to the
  caller in the order they are sent.
*/
module Utils {
  import opened Optional
  import opened Calendar
  import opened Models

  // ---------------------------------------------------------------------------
  // The exchange-rate table
  // ---------------------------------------------------------------------------

  /** The currencies the refresh fetches, in the order it fetches them. */
  const Tracked: seq<string> := ["USD", "EUR", "CZK", "PLN"]

  predicate IsPair(row: ExchangeRate, base: string, target: string) {
    row.base == base && row.target == target
  }

  /** Index of the first row for the directed pair (`filter_by(base, target).first()`). */
  function FindRow(table: seq<ExchangeRate>, base: string, target: string): (r: Option<nat>)
    ensures r.Some? ==> r.value < |table| && IsPair(table[r.value], base, target)
    ensures r.Some? ==> forall j :: 0 <= j < r.value ==> !IsPair(table[j], base, target)
    ensures r.None? <==> forall j :: 0 <= j < |table| ==> !IsPair(table[j], base, target)
  {
    if |table| == 0 then None
    else if IsPair(table[0], base, target) then Some(0)
    else match FindRow(table[1..], base, target)
      case Some(i) => Some(i + 1)
      case None => None
  }

  /** The stored rate of the first row for the pair, if there is one. */
  function FindRate(table: seq<ExchangeRate>, base: string, target: string): Option<real> {
    match FindRow(table, base, target)
    case Some(i) => Some(table[i].rate)
    case None => None
  }

  /** The directed pairs the table holds rows for. */
  function Pairs(table: seq<ExchangeRate>): set<(string, string)> {
    set i | 0 <= i < |table| :: (table[i].base, table[i].target)
  }

  /** No directed pair has two rows. */
  predicate NoDuplicatePairs(table: seq<ExchangeRate>) {
    forall i, j :: 0 <= i < j < |table| ==> !IsPair(table[j], table[i].base, table[i].target)
  }

  /** The ordered pairs of distinct tracked currencies. */
  function TrackedPairs(): set<(string, string)> {
    set a, b | a in Tracked && b in Tracked && a != b :: (a, b)
  }

  // ---------------------------------------------------------------------------
  // convert_currency
  // ---------------------------------------------------------------------------

  /**
    Whether `convert_currency(amount, from, to)` returns rather than raising
    `ZeroDivisionError`: only the bridge divides, so the from→USD rate must be
    non-zero when the bridge is taken (distinct currencies, no direct row, and
    a USD→to row).
  */
  predicate CanConvert(table: seq<ExchangeRate>, from: string, to: string) {
    (from != to && FindRate(table, from, to).None? && FindRate(table, "USD", to).Some?)
    ==> FindRate(table, from, "USD") != Some(0.0)
  }

  /**
    `convert_currency(amount, from, to)`: the amount itself for equal
    currencies, the first stored direct rate if there is one, otherwise the
    bridge `amount · (1 / rate(from→USD)) · rate(USD→to)` when both legs are
    stored, and otherwise the amount unchanged.
  */
  function ConvertCurrency(table: seq<ExchangeRate>, amount: real, from: string, to: string): (r: real)
    requires CanConvert(table, from, to)
    ensures r == amount * ConversionFactor(table, from, to)
  {
    if from == to then amount
    else match FindRate(table, from, to)
      case Some(rate) => amount * rate
      case None =>
        match (FindRate(table, from, "USD"), FindRate(table, "USD", to))
        case (Some(fromUsd), Some(usdTo)) =>
          var usdAmount := amount * (1.0 / fromUsd);
          usdAmount * usdTo
        case _ => amount
  }

  /**
    The factor a conversion multiplies every amount by; it depends on the
    table and the two currencies only: 1 for equal currencies, the direct
    rate, `rate(USD→to) / rate(from→USD)` across the bridge, and 1 without a path.
  */
  function ConversionFactor(table: seq<ExchangeRate>, from: string, to: string): real
    requires CanConvert(table, from, to)
  {
    if from == to then 1.0
    else if FindRate(table, from, to).Some? then FindRate(table, from, to).value
    else if FindRate(table, from, "USD").Some? && FindRate(table, "USD", to).Some?
    then FindRate(table, "USD", to).value / FindRate(table, from, "USD").value
    else 1.0
  }

  /** Conversion is linear: sums and multiples of amounts convert term by term. */
  lemma ConvertCurrencyIsLinear(table: seq<ExchangeRate>, a: real, b: real, c: real, from: string, to: string)
    requires CanConvert(table, from, to)
    ensures ConvertCurrency(table, a + b, from, to) == ConvertCurrency(table, a, from, to) + ConvertCurrency(table, b, from, to)
    ensures ConvertCurrency(table, c * a, from, to) == c * ConvertCurrency(table, a, from, to)
  {
    var f := ConversionFactor(table, from, to);
    assert (a + b) * f == a * f + b * f;
    assert (c * a) * f == c * (a * f);
  }

  /** No row converting into USD has a zero rate, so every conversion is defined. */
  predicate NoZeroRateToUsd(table: seq<ExchangeRate>) {
    forall i :: 0 <= i < |table| && table[i].target == "USD" ==> table[i].rate != 0.0
  }

  lemma NoZeroRateToUsdCanConvert(table: seq<ExchangeRate>, from: string, to: string)
    requires NoZeroRateToUsd(table)
    ensures CanConvert(table, from, to)
  {
  }

  /** A stored direct rate takes precedence: the result is the amount times the first row's rate. */
  lemma ConvertDirect(table: seq<ExchangeRate>, amount: real, from: string, to: string, i: nat)
    requires from != to
    requires i < |table| && IsPair(table[i], from, to)
    requires forall j :: 0 <= j < i ==> !IsPair(table[j], from, to)
    ensures ConvertCurrency(table, amount, from, to) == amount * table[i].rate
  {
    assert FindRow(table, from, to) == Some(i);
  }

  /** Without a direct rate but with both legs stored, the result is `amount · r2 / r1`. */
  lemma ConvertBridge(table: seq<ExchangeRate>, amount: real, from: string, to: string, r1: real, r2: real)
    requires CanConvert(table, from, to) && from != to
    requires forall j :: 0 <= j < |table| ==> !IsPair(table[j], from, to)
    requires FindRate(table, from, "USD") == Some(r1) && FindRate(table, "USD", to) == Some(r2)
    ensures r1 != 0.0 && ConvertCurrency(table, amount, from, to) == amount * r2 / r1
  {
    assert FindRow(table, from, to).None?;
    assert ConversionFactor(table, from, to) == r2 / r1;
    assert amount * (r2 / r1) == amount * r2 / r1;
  }

  /** Equal currencies, or no direct rate and a missing leg, give the amount unchanged. */
  lemma ConvertWithoutPath(table: seq<ExchangeRate>, amount: real, from: string, to: string)
    requires from != to ==> forall j :: 0 <= j < |table| ==> !IsPair(table[j], from, to)
    requires from != to ==> FindRate(table, from, "USD").None? || FindRate(table, "USD", to).None?
    ensures ConvertCurrency(table, amount, from, to) == amount
  {
    if from != to {
      assert FindRow(table, from, to).None?;
    }
  }

  /**
    The bridge is the composition of its two legs only in degenerate cases:
    converting to USD and then from USD multiplies by `r1 · r2`, the bridge
    by `r2 / r1`, and these agree exactly when `r1 · r1 == 1` or the result is zero.
  */
  lemma BridgeIsNotComposition(table: seq<ExchangeRate>, amount: real, from: string, to: string)
    requires from != to && from != "USD" && to != "USD"
    requires FindRate(table, from, to).None?
    requires FindRate(table, from, "USD").Some? && FindRate(table, "USD", to).Some?
    requires CanConvert(table, from, to)
    ensures var r1, r2 := FindRate(table, from, "USD").value, FindRate(table, "USD", to).value;
      ConvertCurrency(table, amount, from, to)
        == ConvertCurrency(table, ConvertCurrency(table, amount, from, "USD"), "USD", to)
      <==> (amount * r2 == 0.0 || r1 * r1 == 1.0)
  {
    var r1, r2 := FindRate(table, from, "USD").value, FindRate(table, "USD", to).value;
    var bridged := ConvertCurrency(table, amount, from, to);
    var inUsd := ConvertCurrency(table, amount, from, "USD");
    var composed := ConvertCurrency(table, inUsd, "USD", to);
    assert ConversionFactor(table, from, to) == r2 / r1;
    assert ConversionFactor(table, from, "USD") == r1;
    assert ConversionFactor(table, "USD", to) == r2;
    BridgeAgainstLegs(bridged, composed, amount, r1, r2);
  }

  /** Scaling by `r2 / r1` agrees with scaling by `r1` and then `r2` exactly when `amount · r2` is zero or `r1 · r1` is 1. */
  lemma BridgeAgainstLegs(bridged: real, composed: real, amount: real, r1: real, r2: real)
    requires r1 != 0.0
    requires bridged == amount * (r2 / r1) && composed == (amount * r1) * r2
    ensures bridged == composed <==> amount * r2 == 0.0 || r1 * r1 == 1.0
  {
    var x := amount * r2;
    assert bridged == x * (1.0 / r1);
    assert composed == x * r1;
    ScaledByInverse(bridged, composed, x, r1);
  }

  /** `x / r` and `x · r` agree exactly when `x` is zero or `r · r` is 1. */
  lemma ScaledByInverse(bridged: real, composed: real, x: real, r: real)
    requires r != 0.0 && bridged == x * (1.0 / r) && composed == x * r
    ensures bridged == composed <==> x == 0.0 || r * r == 1.0
  {
    ScaledEqual(x, 1.0 / r, r);
    InverseIsSelf(r);
  }

  lemma ScaledEqual(x: real, u: real, v: real)
    ensures x * u == x * v <==> x == 0.0 || u == v
  {
    if x != 0.0 && x * u == x * v {
      assert x * (u - v) == 0.0;
    }
  }

  lemma InverseIsSelf(r: real)
    requires r != 0.0
    ensures 1.0 / r == r <==> r * r == 1.0
  {
    if 1.0 / r == r {
      assert r * r == r * (1.0 / r) == 1.0;
    }
    if r * r == 1.0 {
      assert 1.0 / r == (r * r) / r == r;
    }
  }

  /** The 12 rows the fallback inserts, in insertion order, each stamped `now`. */
  function DefaultRates(now: DateTime): seq<ExchangeRate> {
    [ ExchangeRate("USD", "EUR", 0.92, now), ExchangeRate("USD", "CZK", 22.89, now), ExchangeRate("USD", "PLN", 3.95, now),
      ExchangeRate("EUR", "USD", 1.09, now), ExchangeRate("EUR", "CZK", 24.97, now), ExchangeRate("EUR", "PLN", 4.31, now),
      ExchangeRate("CZK", "USD", 0.044, now), ExchangeRate("CZK", "EUR", 0.040, now), ExchangeRate("CZK", "PLN", 0.17, now),
      ExchangeRate("PLN", "USD", 0.25, now), ExchangeRate("PLN", "EUR", 0.23, now), ExchangeRate("PLN", "CZK", 5.79, now) ]
  }

  /** The row for the `x`-th and `y`-th tracked currencies sits in base group `x`, at `y`'s place among the other three. */
  lemma DefaultRowFor(now: DateTime, x: int, y: int)
    requires 0 <= x < |Tracked| && 0 <= y < |Tracked| && x != y
    ensures var row := DefaultRates(now)[3 * x + if y < x then y else y - 1];
      row.base == Tracked[x] && row.target == Tracked[y]
  {
    if x == 0 {
    } else if x == 1 {
    } else if x == 2 {
    } else {
    }
  }

  /** The default rows are exactly the ordered pairs of distinct tracked currencies. */
  lemma DefaultPairsAreTrackedPairs(now: DateTime)
    ensures Pairs(DefaultRates(now)) == TrackedPairs()
  {
    var d := DefaultRates(now);
    forall p | p in TrackedPairs() ensures p in Pairs(d) {
      var x :| 0 <= x < |Tracked| && Tracked[x] == p.0;
      var y :| 0 <= y < |Tracked| && Tracked[y] == p.1 && y != x;
      DefaultRowFor(now, x, y);
    }
  }

  /** The default table holds exactly one row for each ordered pair of distinct tracked currencies. */
  lemma DefaultRatesCoverTrackedPairs(now: DateTime)
    ensures |DefaultRates(now)| == 12
    ensures Pairs(DefaultRates(now)) == TrackedPairs()
    ensures NoDuplicatePairs(DefaultRates(now))
    ensures NoZeroRateToUsd(DefaultRates(now))
  {
    DefaultPairsAreTrackedPairs(now);
  }

  /** A round trip through the default table does not return the amount: 100 USD → 92 EUR → 100.28 USD. */
  lemma DefaultRoundTripDrifts(now: DateTime)
    ensures CanConvert(DefaultRates(now), "USD", "EUR") && CanConvert(DefaultRates(now), "EUR", "USD")
    ensures ConvertCurrency(DefaultRates(now), 100.0, "USD", "EUR") == 92.0
    ensures ConvertCurrency(DefaultRates(now), 92.0, "EUR", "USD") == 100.28
  {
    var d := DefaultRates(now);
    DefaultRatesCoverTrackedPairs(now);
    NoZeroRateToUsdCanConvert(d, "USD", "EUR");
    NoZeroRateToUsdCanConvert(d, "EUR", "USD");
    assert FindRow(d, "USD", "EUR") == Some(0);
    assert !IsPair(d[0], "EUR", "USD") && !IsPair(d[1], "EUR", "USD") && !IsPair(d[2], "EUR", "USD");
    assert FindRow(d[1..], "EUR", "USD") == Some(2) by {
      assert d[1..][1..] == d[2..] && d[2..][1..] == d[3..];
      assert FindRow(d[3..], "EUR", "USD") == Some(0);
    }
  }

  /**
    With only `USD→EUR` stored in one direction and a CZK bridge, EUR to CZK
    finds neither a direct rate nor an EUR→USD leg and returns the amount
    unchanged.
  */
  lemma MissingLegKeepsAmount(now: DateTime, amount: real)
    ensures var t := [ExchangeRate("USD", "EUR", 0.92, now), ExchangeRate("USD", "CZK", 22.89, now)];
      CanConvert(t, "EUR", "CZK") && ConvertCurrency(t, amount, "EUR", "CZK") == amount
  {
  }

  // ---------------------------------------------------------------------------
  // fetch_exchange_rates and add_default_exchange_rates
  // ---------------------------------------------------------------------------

  /** What one `requests.get` for a base produced: a response, or an exception. */
  datatype FetchResult = Response(status: int, rates: map<string, real>) | Raised

  /** Update the first row of the pair in place, or append a new row. */
  function Upsert(table: seq<ExchangeRate>, base: string, target: string, rate: real, now: DateTime): seq<ExchangeRate> {
    match FindRow(table, base, target)
    case Some(i) => table[i := table[i].(rate := rate, updatedAt := now)]
    case None => table + [ExchangeRate(base, target, rate, now)]
  }

  /** The table after storing, for one base, every target of `targets` other than the base that the response holds. */
  function StoreRates(table: seq<ExchangeRate>, base: string, targets: seq<string>, rates: map<string, real>, now: DateTime): seq<ExchangeRate>
    decreases |targets|
  {
    if |targets| == 0 then table
    else
      var t := targets[0];
      var next := if t != base && t in rates then Upsert(table, base, t, rates[t], now) else table;
      StoreRates(next, base, targets[1..], rates, now)
  }

  /**
    The table after the fetch loop over `bases`, one result per base: a 200
    response stores its rates, any other status is skipped, and an exception
    ends the loop.
  */
  function Refresh(table: seq<ExchangeRate>, bases: seq<string>, fetched: seq<FetchResult>, now: DateTime): seq<ExchangeRate>
    requires |fetched| == |bases|
    decreases |bases|
  {
    if |bases| == 0 then table
    else match fetched[0]
      case Raised => table
      case Response(status, rates) =>
        var next := if status == 200 then StoreRates(table, bases[0], Tracked, rates, now) else table;
        Refresh(next, bases[1..], fetched[1..], now)
  }

  /** The table `fetch_exchange_rates` leaves: the refreshed table, or the defaults if that is empty. */
  function AfterFetch(table: seq<ExchangeRate>, fetched: seq<FetchResult>, now: DateTime): seq<ExchangeRate>
    requires |fetched| == |Tracked|
  {
    var refreshed := Refresh(table, Tracked, fetched, now);
    if |refreshed| == 0 then DefaultRates(now) else refreshed
  }

  /** Rows other than the upserted one keep their place and contents. */
  lemma FindRowAfterUpsert(table: seq<ExchangeRate>, base: string, target: string, rate: real, now: DateTime, b: string, t: string)
    ensures var u := Upsert(table, base, target, rate, now);
      && |u| >= |table|
      && (b == base && t == target ==> FindRate(u, b, t) == Some(rate))
      && (b != base || t != target ==> FindRow(u, b, t) == FindRow(table, b, t))
  {
    var u := Upsert(table, base, target, rate, now);
    assert forall j :: 0 <= j < |table| ==> (IsPair(u[j], b, t) <==> IsPair(table[j], b, t));
    match FindRow(table, base, target)
    case Some(i) =>
      if b != base || t != target {
        FindRowOnExtension(table, u, b, t);
      }
    case None =>
      assert IsPair(u[|table|], base, target);
      if b != base || t != target {
        FindRowOnExtension(table, u, b, t);
      }
  }

  /** A table extended by rows that are not the pair finds the pair where the original does. */
  lemma FindRowOnExtension(table: seq<ExchangeRate>, u: seq<ExchangeRate>, b: string, t: string)
    requires |u| >= |table|
    requires forall j :: 0 <= j < |table| ==> (IsPair(u[j], b, t) <==> IsPair(table[j], b, t))
    requires forall j :: |table| <= j < |u| ==> !IsPair(u[j], b, t)
    ensures FindRow(u, b, t) == FindRow(table, b, t)
  {
    var r, r' := FindRow(table, b, t), FindRow(u, b, t);
    if r.Some? {
      assert IsPair(u[r.value], b, t);
      assert forall j :: 0 <= j < r.value ==> !IsPair(u[j], b, t);
    }
  }

  /** Upserting keeps every stored pair, adds only its own pair and never duplicates one. */
  lemma UpsertPairs(table: seq<ExchangeRate>, base: string, target: string, rate: real, now: DateTime)
    ensures Pairs(Upsert(table, base, target, rate, now)) == Pairs(table) + {(base, target)}
    ensures NoDuplicatePairs(table) ==> NoDuplicatePairs(Upsert(table, base, target, rate, now))
  {
    var u := Upsert(table, base, target, rate, now);
    match FindRow(table, base, target)
    case Some(i) =>
      assert forall j :: 0 <= j < |u| ==> (u[j].base, u[j].target) == (table[j].base, table[j].target);
      assert (table[i].base, table[i].target) == (base, target);
    case None =>
      assert u == table + [ExchangeRate(base, target, rate, now)];
      assert (u[|table|].base, u[|table|].target) == (base, target);
      assert forall j :: 0 <= j < |table| ==> (u[j].base, u[j].target) == (table[j].base, table[j].target);
  }

  /** Storing one response writes only pairs `(base, t)` with `t` a target other than the base, and duplicates none. */
  lemma {:induction false} StoreRatesPairs(table: seq<ExchangeRate>, base: string, targets: seq<string>, rates: map<string, real>, now: DateTime)
    ensures Pairs(table) <= Pairs(StoreRates(table, base, targets, rates, now))
    ensures Pairs(StoreRates(table, base, targets, rates, now))
      <= Pairs(table) + (set t | t in targets && t != base :: (base, t))
    ensures |StoreRates(table, base, targets, rates, now)| >= |table|
    ensures NoDuplicatePairs(table) ==> NoDuplicatePairs(StoreRates(table, base, targets, rates, now))
    decreases |targets|
  {
    if |targets| > 0 {
      var t := targets[0];
      var next := if t != base && t in rates then Upsert(table, base, t, rates[t], now) else table;
      if t != base && t in rates {
        UpsertPairs(table, base, t, rates[t], now);
        FindRowAfterUpsert(table, base, t, rates[t], now, base, t);
      }
      StoreRatesPairs(next, base, targets[1..], rates, now);
      assert forall u | u in targets[1..] :: u in targets;
    }
  }

  /** Later upserts of other pairs do not disturb a stored rate. */
  lemma {:induction false} StoreRatesKeepsOtherPairs(table: seq<ExchangeRate>, base: string, targets: seq<string>, rates: map<string, real>, now: DateTime, b: string, t: string)
    requires b != base || t !in targets
    ensures FindRate(StoreRates(table, base, targets, rates, now), b, t) == FindRate(table, b, t)
    decreases |targets|
  {
    if |targets| > 0 {
      var u := targets[0];
      var next := if u != base && u in rates then Upsert(table, base, u, rates[u], now) else table;
      if u != base && u in rates {
        FindRowAfterUpsert(table, base, u, rates[u], now, b, t);
      }
      StoreRatesKeepsOtherPairs(next, base, targets[1..], rates, now, b, t);
    }
  }

  /** After a 200 response for `base`, every target other than the base that the response holds has the fetched rate. */
  lemma {:induction false} StoreRatesStoresFetched(table: seq<ExchangeRate>, base: string, targets: seq<string>, rates: map<string, real>, now: DateTime, t: string)
    requires t in targets && t != base && t in rates
    ensures FindRate(StoreRates(table, base, targets, rates, now), base, t) == Some(rates[t])
    decreases |targets|
  {
    var u := targets[0];
    var next := if u != base && u in rates then Upsert(table, base, u, rates[u], now) else table;
    if u != base && u in rates {
      FindRowAfterUpsert(table, base, u, rates[u], now, base, t);
    }
    if t in targets[1..] {
      StoreRatesStoresFetched(next, base, targets[1..], rates, now, t);
    } else {
      assert u == t;
      StoreRatesKeepsOtherPairs(next, base, targets[1..], rates, now, base, t);
    }
  }

  /**
    Refreshing tracked bases keeps every stored pair, writes only ordered
    pairs of distinct tracked currencies, never duplicates a pair and never
    removes a row.
  */
  lemma {:induction false} RefreshPairs(table: seq<ExchangeRate>, bases: seq<string>, fetched: seq<FetchResult>, now: DateTime)
    requires |fetched| == |bases|
    requires forall b | b in bases :: b in Tracked
    ensures Pairs(table) <= Pairs(Refresh(table, bases, fetched, now)) <= Pairs(table) + TrackedPairs()
    ensures |Refresh(table, bases, fetched, now)| >= |table|
    ensures NoDuplicatePairs(table) ==> NoDuplicatePairs(Refresh(table, bases, fetched, now))
    decreases |bases|
  {
    if |bases| > 0 && fetched[0].Response? {
      var next := if fetched[0].status == 200 then StoreRates(table, bases[0], Tracked, fetched[0].rates, now) else table;
      if fetched[0].status == 200 {
        StoreRatesPairs(table, bases[0], Tracked, fetched[0].rates, now);
        assert (set t | t in Tracked && t != bases[0] :: (bases[0], t)) <= TrackedPairs();
      }
      RefreshPairs(next, bases[1..], fetched[1..], now);
    }
  }

  /** An exception for the `k`-th base ends the refresh: the later bases' responses do not matter. */
  lemma {:induction false} RefreshStopsAtException(table: seq<ExchangeRate>, bases: seq<string>, fetched: seq<FetchResult>, other: seq<FetchResult>, now: DateTime, k: nat)
    requires |fetched| == |bases| == |other|
    requires k < |bases| && fetched[k] == Raised
    requires fetched[..k + 1] == other[..k + 1]
    ensures Refresh(table, bases, fetched, now) == Refresh(table, bases, other, now)
    decreases k
  {
    assert fetched[0] == fetched[..k + 1][0] == other[0];
    if k > 0 && fetched[0].Response? {
      var next := if fetched[0].status == 200 then StoreRates(table, bases[0], Tracked, fetched[0].rates, now) else table;
      assert fetched[1..][..k] == fetched[..k + 1][1..] == other[1..][..k];
      RefreshStopsAtException(next, bases[1..], fetched[1..], other[1..], now, k - 1);
    }
  }

  /** A table that held rows before the refresh still holds them, so the defaults are not added. */
  lemma AfterFetchKeepsNonEmptyTable(table: seq<ExchangeRate>, fetched: seq<FetchResult>, now: DateTime)
    requires |fetched| == |Tracked| && |table| > 0
    ensures AfterFetch(table, fetched, now) == Refresh(table, Tracked, fetched, now)
  {
    RefreshPairs(table, Tracked, fetched, now);
  }

  /** The defaults are inserted exactly when the table is still empty after the refresh. */
  lemma AfterFetchFallsBackWhenEmpty(fetched: seq<FetchResult>, now: DateTime)
    requires |fetched| == |Tracked|
    requires forall k :: 0 <= k < |fetched| ==> fetched[k].Raised? || fetched[k].status != 200
    ensures AfterFetch([], fetched, now) == DefaultRates(now)
  {
    EmptyRefreshStaysEmpty(Tracked, fetched, now);
  }

  lemma {:induction false} EmptyRefreshStaysEmpty(bases: seq<string>, fetched: seq<FetchResult>, now: DateTime)
    requires |fetched| == |bases|
    requires forall k :: 0 <= k < |fetched| ==> fetched[k].Raised? || fetched[k].status != 200
    ensures Refresh([], bases, fetched, now) == []
    decreases |bases|
  {
    if |bases| > 0 && fetched[0].Response? {
      EmptyRefreshStaysEmpty(bases[1..], fetched[1..], now);
    }
  }

  /** Storing the responses of other bases leaves the rates of base `b` as they were. */
  lemma {:induction false} RefreshKeepsOtherBases(table: seq<ExchangeRate>, bases: seq<string>, fetched: seq<FetchResult>, now: DateTime, b: string, t: string)
    requires |fetched| == |bases| && b !in bases
    ensures FindRate(Refresh(table, bases, fetched, now), b, t) == FindRate(table, b, t)
    decreases |bases|
  {
    if |bases| > 0 && fetched[0].Response? {
      var next := if fetched[0].status == 200 then StoreRates(table, bases[0], Tracked, fetched[0].rates, now) else table;
      if fetched[0].status == 200 {
        StoreRatesKeepsOtherPairs(table, bases[0], Tracked, fetched[0].rates, now, b, t);
      }
      assert forall x | x in bases[1..] :: x in bases;
      RefreshKeepsOtherBases(next, bases[1..], fetched[1..], now, b, t);
    }
  }

  /**
    When no exception came before the `k`-th base and its response is a 200,
    every tracked target other than that base which the response holds ends
    the refresh with the fetched rate.
  */
  lemma {:induction false} RefreshStoresFetched(table: seq<ExchangeRate>, bases: seq<string>, fetched: seq<FetchResult>, now: DateTime, k: nat, t: string)
    requires |fetched| == |bases| && k < |bases|
    requires forall i, j :: 0 <= i < j < |bases| ==> bases[i] != bases[j]
    requires forall j :: 0 <= j < k ==> fetched[j].Response?
    requires fetched[k].Response? && fetched[k].status == 200
    requires t in Tracked && t != bases[k] && t in fetched[k].rates
    ensures FindRate(Refresh(table, bases, fetched, now), bases[k], t) == Some(fetched[k].rates[t])
    decreases k
  {
    var next := if fetched[0].status == 200 then StoreRates(table, bases[0], Tracked, fetched[0].rates, now) else table;
    assert Refresh(table, bases, fetched, now) == Refresh(next, bases[1..], fetched[1..], now);
    if k == 0 {
      StoreRatesStoresFetched(table, bases[0], Tracked, fetched[0].rates, now, t);
      assert bases[0] !in bases[1..];
      RefreshKeepsOtherBases(next, bases[1..], fetched[1..], now, bases[0], t);
    } else {
      RefreshStoresFetched(next, bases[1..], fetched[1..], now, k - 1, t);
    }
  }

  /**
    `fetch_exchange_rates` stores what it fetched: after a 200 response for
    the `k`-th tracked base with no exception before it, the table holds the
    fetched rate for every tracked target other than the base in the response.
  */
  lemma AfterFetchStoresFetched(table: seq<ExchangeRate>, fetched: seq<FetchResult>, now: DateTime, k: nat, t: string)
    requires |fetched| == |Tracked| && k < |Tracked|
    requires forall j :: 0 <= j < k ==> fetched[j].Response?
    requires fetched[k].Response? && fetched[k].status == 200
    requires t in Tracked && t != Tracked[k] && t in fetched[k].rates
    ensures FindRate(AfterFetch(table, fetched, now), Tracked[k], t) == Some(fetched[k].rates[t])
  {
    RefreshStoresFetched(table, Tracked, fetched, now, k, t);
  }

  /** The upsert of one fetched rate (utils.py:36-50). */
  method UpsertRate(db: Database, base: string, target: string, rate: real, now: DateTime)
    modifies db`exchangeRates
    ensures db.exchangeRates == Upsert(old(db.exchangeRates), base, target, rate, now)
  {
    var i := 0;
    while i < |db.exchangeRates| && !IsPair(db.exchangeRates[i], base, target)
      invariant 0 <= i <= |db.exchangeRates|
      invariant forall j :: 0 <= j < i ==> !IsPair(db.exchangeRates[j], base, target)
    {
      i := i + 1;
    }
    if i < |db.exchangeRates| {
      db.exchangeRates := db.exchangeRates[i := db.exchangeRates[i].(rate := rate, updatedAt := now)];
    } else {
      db.exchangeRates := db.exchangeRates + [ExchangeRate(base, target, rate, now)];
    }
  }

  /** `add_default_exchange_rates`: append the 12 default rows. */
  method AddDefaultExchangeRates(db: Database, now: DateTime)
    modifies db`exchangeRates
    ensures db.exchangeRates == old(db.exchangeRates) + DefaultRates(now)
  {
    var defaults := DefaultRates(now);
    var k := 0;
    while k < |defaults|
      invariant 0 <= k <= |defaults|
      invariant db.exchangeRates == old(db.exchangeRates) + defaults[..k]
    {
      db.exchangeRates := db.exchangeRates + [defaults[k]];
      assert defaults[..k + 1] == defaults[..k] + [defaults[k]];
      k := k + 1;
    }
  }

  /**
    `fetch_exchange_rates`, with `fetched[k]` what the request for the `k`-th
    tracked base produced.
  */
  method FetchExchangeRates(db: Database, fetched: seq<FetchResult>, now: DateTime)
    requires |fetched| == |Tracked|
    modifies db`exchangeRates
    ensures db.exchangeRates == AfterFetch(old(db.exchangeRates), fetched, now)
  {
    var b := 0;
    while b < |Tracked|
      invariant 0 <= b <= |Tracked|
      invariant Refresh(db.exchangeRates, Tracked[b..], fetched[b..], now) == Refresh(old(db.exchangeRates), Tracked, fetched, now)
    {
      var base := Tracked[b];
      assert Tracked[b..][1..] == Tracked[b + 1..] && fetched[b..][1..] == fetched[b + 1..];
      match fetched[b] {
        case Raised =>
          break;
        case Response(status, rates) =>
          if status == 200 {
            ghost var before := db.exchangeRates;
            var t := 0;
            while t < |Tracked|
              invariant 0 <= t <= |Tracked|
              invariant StoreRates(db.exchangeRates, base, Tracked[t..], rates, now) == StoreRates(before, base, Tracked, rates, now)
            {
              var target := Tracked[t];
              assert Tracked[t..][1..] == Tracked[t + 1..];
              if target != base && target in rates {
                UpsertRate(db, base, target, rates[target], now);
              }
              t := t + 1;
            }
          }
      }
      b := b + 1;
    }
    if |db.exchangeRates| == 0 {
      AddDefaultExchangeRates(db, now);
    }
  }

  // ---------------------------------------------------------------------------
  // format_currency
  // ---------------------------------------------------------------------------

  /** The display symbol of a currency, or the code itself for an unknown one. */
  function CurrencySymbol(currency: string): string {
    var symbols := map["USD" := "$", "EUR" := "€", "CZK" := "Kč", "PLN" := "zł"];
    if currency in symbols then symbols[currency] else currency
  }

  /** Whether the symbol follows the amount after a space. */
  predicate SymbolAfterAmount(currency: string) {
    currency == "CZK" || currency == "PLN"
  }

  /**
    `format_currency` with the amount already rendered as `amountText`: CZK and
    PLN put the symbol after a space, every other currency puts it in front.
  */
  function FormatCurrency(amountText: string, currency: string): (r: string)
    ensures AmountText(r, currency) == Some(amountText)
  {
    var symbol := CurrencySymbol(currency);
    if SymbolAfterAmount(currency) then
      var tail := " " + symbol;
      var r := amountText + tail;
      assert |r| - |tail| == |amountText|;
      assert r[..|amountText|] == amountText && r[|amountText|..] == tail;
      assert amountText + " " + symbol == r;
      r
    else
      assert (symbol + amountText)[|symbol|..] == amountText;
      symbol + amountText
  }

  /**
    Reading a formatted amount back: strip the currency's symbol from the
    place where it goes (after the amount and a space for CZK and PLN, in
    front otherwise); text without the symbol there is not a formatted amount.
  */
  function AmountText(formatted: string, currency: string): Option<string> {
    var symbol := CurrencySymbol(currency);
    if SymbolAfterAmount(currency) then
      var tail := " " + symbol;
      if |tail| <= |formatted| && formatted[|formatted| - |tail|..] == tail
      then Some(formatted[..|formatted| - |tail|])
      else None
    else if symbol <= formatted then Some(formatted[|symbol|..])
    else None
  }

  /** Formatting never merges two amounts: distinct amount texts give distinct formatted amounts. */
  lemma FormatCurrencyInjective(a: string, b: string, currency: string)
    ensures FormatCurrency(a, currency) == FormatCurrency(b, currency) ==> a == b
  {
    assert AmountText(FormatCurrency(a, currency), currency) == Some(a);
    assert AmountText(FormatCurrency(b, currency), currency) == Some(b);
  }

  // ---------------------------------------------------------------------------
  // check_upcoming_reminders
  // ---------------------------------------------------------------------------

  /** The payment-reminder email: recipient, subscription name, days until payment and the amount. */
  datatype ReminderEmail = ReminderEmail(recipient: string, subscriptionName: string, daysUntilPayment: int, amount: real, currency: string)

  /**
    Whether the sweep at `now` marks reminder `r` as sent: it is unsent, its
    subscription and user exist, the subscription is active with a next
    payment date, and the whole days until that date are at most `daysBefore`.
  */
  predicate Fires(db: Database, r: Reminder, now: DateTime)
    requires db.Valid() && Valid(now)
    reads db`users, db`subscriptions, db.subscriptions
  {
    var subscription := FindSubscription(db.subscriptions, r.subscriptionId);
    && !r.isSent
    && subscription.Some?
    && FindUser(db.users, r.userId).Some?
    && subscription.value.isActive
    && subscription.value.nextPaymentDate.Some?
    && DaysBetween(subscription.value.nextPaymentDate.value, now) <= r.daysBefore
  }

  /** Reminder `r` after the sweep. */
  function Swept(db: Database, r: Reminder, now: DateTime): Reminder
    requires db.Valid() && Valid(now)
    reads db`users, db`subscriptions, db.subscriptions
  {
    if Fires(db, r, now) then r.(isSent := true) else r
  }

  /** The email the sweep sends for `r`: only for a firing reminder with email on and a user with an address. */
  function MailFor(db: Database, r: Reminder, now: DateTime): seq<ReminderEmail>
    requires db.Valid() && Valid(now)
    reads db`users, db`subscriptions, db.subscriptions
  {
    if !Fires(db, r, now) then []
    else
      var s := FindSubscription(db.subscriptions, r.subscriptionId).value;
      var u := FindUser(db.users, r.userId).value;
      if r.emailNotification && u.email != "" then
        [ReminderEmail(u.email, s.name, DaysBetween(s.nextPaymentDate.value, now), s.amount, s.currency)]
      else []
  }

  /** The emails the sweep sends for `rs`, in order. */
  function SweepMails(db: Database, rs: seq<Reminder>, now: DateTime): seq<ReminderEmail>
    requires db.Valid() && Valid(now)
    reads db`users, db`subscriptions, db.subscriptions
  {
    if |rs| == 0 then [] else SweepMails(db, rs[..|rs| - 1], now) + MailFor(db, rs[|rs| - 1], now)
  }

  /** The reminders `rs` after the sweep, in order. */
  function SweptAll(db: Database, rs: seq<Reminder>, now: DateTime): (r: seq<Reminder>)
    requires db.Valid() && Valid(now)
    reads db`users, db`subscriptions, db.subscriptions
    ensures |r| == |rs|
    ensures forall k :: 0 <= k < |rs| ==> r[k] == Swept(db, rs[k], now)
  {
    if |rs| == 0 then [] else SweptAll(db, rs[..|rs| - 1], now) + [Swept(db, rs[|rs| - 1], now)]
  }

  /**
    One pass of the sweep's loop body over reminder `r`: skip it when it is
    sent, when its subscription or user is missing, or when the subscription
    is inactive or has no next date; otherwise, when the whole days until
    payment are at most `days_before`, send the email (only with email on
    and a user address) and mark it sent. Returns the reminder and the
    emails sent for it.
  */
  function SweepReminder(db: Database, r: Reminder, now: DateTime): (out: (Reminder, seq<ReminderEmail>))
    requires db.Valid() && Valid(now)
    reads db`users, db`subscriptions, db.subscriptions
    ensures out.0 == Swept(db, r, now)
    ensures out.1 == MailFor(db, r, now)
  {
    var subscription := FindSubscription(db.subscriptions, r.subscriptionId);
    var user := FindUser(db.users, r.userId);
    if r.isSent || subscription.None? || user.None? || !subscription.value.isActive then (r, [])
    else if subscription.value.nextPaymentDate.None? then (r, [])
    else
      var s := subscription.value;
      var daysUntilPayment := DaysBetween(s.nextPaymentDate.value, now);
      if daysUntilPayment > r.daysBefore then (r, [])
      else if r.emailNotification && user.value.email != "" then
        (r.(isSent := true), [ReminderEmail(user.value.email, s.name, daysUntilPayment, s.amount, s.currency)])
      else (r.(isSent := true), [])
  }

  /** The loop of the sweep over `reminders`: the reminders after it, and the emails in the order they are sent. */
  method SweepAll(db: Database, reminders: seq<Reminder>, now: DateTime) returns (swept: seq<Reminder>, sent: seq<ReminderEmail>)
    requires db.Valid() && Valid(now)
    ensures swept == SweptAll(db, reminders, now)
    ensures sent == SweepMails(db, reminders, now)
  {
    swept, sent := [], [];
    var i := 0;
    while i < |reminders|
      invariant 0 <= i <= |reminders|
      invariant swept == SweptAll(db, reminders[..i], now)
      invariant sent == SweepMails(db, reminders[..i], now)
    {
      assert reminders[..i + 1][..i] == reminders[..i];
      var (reminder, mail) := SweepReminder(db, reminders[i], now);
      swept, sent := swept + [reminder], sent + mail;
      i := i + 1;
    }
    assert reminders[..i] == reminders;
  }

  /** `check_upcoming_reminders` at `now`, returning the emails it sends in the order it sends them. */
  method CheckUpcomingReminders(db: Database, now: DateTime) returns (sent: seq<ReminderEmail>)
    requires db.Valid() && Valid(now)
    modifies db`reminders
    ensures db.reminders == old(SweptAll(db, db.reminders, now))
    ensures sent == old(SweepMails(db, db.reminders, now))
  {
    ghost var expected := SweptAll(db, db.reminders, now);
    var swept;
    swept, sent := SweepAll(db, db.reminders, now);
    db.reminders := swept;
    assert db.reminders == expected;
  }

  /** The sweep never clears a flag, and only firing reminders change. */
  lemma SweptOnlySets(db: Database, r: Reminder, now: DateTime)
    requires db.Valid() && Valid(now)
    ensures r.isSent ==> Swept(db, r, now) == r
    ensures Swept(db, r, now) != r ==> Fires(db, r, now) && Swept(db, r, now) == r.(isSent := true)
    ensures Swept(db, r, now).(isSent := r.isSent) == r
  {
  }

  /** A second sweep at the same time finds nothing left to fire and sends no mail. */
  lemma {:induction false} SecondSweepSendsNothing(db: Database, rs: seq<Reminder>, now: DateTime)
    requires db.Valid() && Valid(now)
    requires forall k :: 0 <= k < |rs| ==> !Fires(db, rs[k], now)
    ensures SweepMails(db, rs, now) == []
  {
    if |rs| > 0 {
      SecondSweepSendsNothing(db, rs[..|rs| - 1], now);
    }
  }

  /** After a sweep, no reminder fires again at the same time. */
  lemma SweptDoesNotFire(db: Database, r: Reminder, now: DateTime)
    requires db.Valid() && Valid(now)
    ensures !Fires(db, Swept(db, r, now), now)
  {
  }

  // ---------------------------------------------------------------------------
  // reset_reminders_for_next_period
  // ---------------------------------------------------------------------------

  /** Whether re-arming runs for `s`: it is active and the calculator returns a date. */
  predicate Rearms(s: Subscription)
    reads s
  {
    s.isActive && s.billingCycle != Lifetime && s.nextPaymentDate.Some?
  }

  /** The primary keys of the re-armed subscriptions of `subs`, collected in list order. */
  function RearmedIds(subs: seq<Subscription>): set<int>
    reads subs
  {
    if |subs| == 0 then {}
    else
      var last := subs[|subs| - 1];
      RearmedIds(subs[..|subs| - 1]) + if Rearms(last) then {last.id} else {}
  }

  /** A key is re-armed exactly when some subscription of the list with that key re-arms. */
  lemma {:induction false} RearmedIdsMembers(subs: seq<Subscription>, id: int)
    ensures id in RearmedIds(subs) <==> exists k :: 0 <= k < |subs| && Rearms(subs[k]) && subs[k].id == id
  {
    if |subs| > 0 {
      var init := subs[..|subs| - 1];
      RearmedIdsMembers(init, id);
      assert forall k :: 0 <= k < |init| ==> init[k] == subs[k];
    }
  }

  /** Reminder `r` once the subscriptions with keys in `armed` are re-armed. */
  function Rearmed(armed: set<int>, r: Reminder): Reminder {
    if r.subscriptionId in armed then r.(isSent := false) else r
  }

  /**
    With distinct keys, a reminder of a subscription that is re-armed ends up
    unsent, and a reminder of any other subscription (inactive, lifetime or
    without a next date) is left exactly as it was.
  */
  lemma RearmedReminderCases(subs: seq<Subscription>, r: Reminder, k: nat)
    requires forall i, j :: 0 <= i < j < |subs| ==> subs[i].id != subs[j].id
    requires k < |subs| && r.subscriptionId == subs[k].id
    ensures Rearms(subs[k]) ==> !Rearmed(RearmedIds(subs), r).isSent
    ensures !Rearms(subs[k]) ==> Rearmed(RearmedIds(subs), r) == r
  {
    RearmedIdsMembers(subs, subs[k].id);
    if subs[k].id in RearmedIds(subs) {
      var j :| 0 <= j < |subs| && Rearms(subs[j]) && subs[j].id == subs[k].id;
      assert j == k;
    }
  }

  /** The reminders `rs` once the subscriptions with keys in `armed` are re-armed. */
  function RearmedAll(armed: set<int>, rs: seq<Reminder>): (r: seq<Reminder>)
    ensures |r| == |rs|
    ensures forall k :: 0 <= k < |rs| ==> r[k].(isSent := rs[k].isSent) == rs[k]
    ensures forall k :: 0 <= k < |rs| ==> (r[k].isSent <==> rs[k].isSent && rs[k].subscriptionId !in armed)
  {
    seq(|rs|, k requires 0 <= k < |rs| => Rearmed(armed, rs[k]))
  }

  /** Re-arming one set of keys and then another is re-arming both at once. */
  lemma RearmedAllTwice(a: set<int>, b: set<int>, rs: seq<Reminder>)
    ensures RearmedAll(b, RearmedAll(a, rs)) == RearmedAll(a + b, rs)
  {
  }

  /** Clear `is_sent` on every reminder of one subscription. */
  method ClearSentFlags(db: Database, subscriptionId: int)
    modifies db`reminders
    ensures db.reminders == RearmedAll({subscriptionId}, old(db.reminders))
  {
    var i := 0;
    while i < |db.reminders|
      invariant 0 <= i <= |db.reminders| == |old(db.reminders)|
      invariant forall k :: 0 <= k < i ==> db.reminders[k] == Rearmed({subscriptionId}, old(db.reminders[k]))
      invariant forall k :: i <= k < |db.reminders| ==> db.reminders[k] == old(db.reminders[k])
    {
      if db.reminders[i].subscriptionId == subscriptionId {
        db.reminders := db.reminders[i := db.reminders[i].(isSent := false)];
      }
      i := i + 1;
    }
  }

  lemma RearmedIdsSnoc(subs: seq<Subscription>, s: Subscription)
    ensures RearmedIds(subs + [s]) == RearmedIds(subs) + (if Rearms(s) then {s.id} else {})
  {
    assert (subs + [s])[..|subs|] == subs;
  }

  /**
    The calculator has run on `s`, whose date was `before`, if it is active:
    its date is then what the calculator stores at `now`; an inactive
    subscription keeps its date.
  */
  predicate DateRecomputed(s: Subscription, before: Option<DateTime>, now: DateTime)
    reads s
  {
    && Valid(now) && Valid(s.startDate)
    && (before.Some? ==> Valid(before.value))
    && s.nextPaymentDate == if s.isActive then NextPaymentDate(before, s.startDate, s.billingCycle, now) else before
  }

  /**
    The re-arm pass has handled the first `j` subscriptions: their dates are
    recomputed from `dates`, the rest still hold theirs, and the reminders are
    `reminders` with the keys re-armed so far cleared.
  */
  ghost predicate RearmedUpTo(db: Database, j: nat, dates: seq<Option<DateTime>>, reminders: seq<Reminder>, now: DateTime)
    reads db, db.subscriptions
  {
    var subs := db.subscriptions;
    && j <= |subs| == |dates|
    && db.Valid()
    && (forall k :: j <= k < |subs| ==> subs[k].nextPaymentDate == dates[k])
    && (forall k :: 0 <= k < j ==> DateRecomputed(subs[k], dates[k], now))
    && db.reminders == RearmedAll(RearmedIds(subs[..j]), reminders)
  }

  /** The body of the re-arm loop: handling the subscription at `j` extends the pass by one. */
  method RearmNext(db: Database, j: nat, s: Subscription, now: DateTime, ghost dates: seq<Option<DateTime>>, ghost reminders: seq<Reminder>)
    requires Valid(now) && j < |db.subscriptions| && db.subscriptions[j] == s
    requires RearmedUpTo(db, j, dates, reminders, now)
    modifies db`reminders, s`nextPaymentDate
    ensures db.subscriptions == old(db.subscriptions)
    ensures RearmedUpTo(db, j + 1, dates, reminders, now)
  {
    var subs := db.subscriptions;
    assert forall k :: 0 <= k < |subs| && k != j ==> subs[k] != s;
    assert s !in subs[..j];
    ghost var armed := RearmedIds(subs[..j]);
    ghost var rs := db.reminders;
    ghost var date := s.nextPaymentDate;
    if s.isActive {
      var next := s.CalculateNextPaymentDate(now);
      if next.Some? {
        ClearSentFlags(db, s.id);
      }
    }
    assert DateRecomputed(s, date, now);
    assert RearmedIds(subs[..j]) == armed;
    ghost var added := if Rearms(s) then {s.id} else {};
    assert db.reminders == RearmedAll(added, rs);
    assert subs[..j + 1] == subs[..j] + [s];
    RearmedIdsSnoc(subs[..j], s);
    RearmedAllTwice(armed, added, reminders);
  }

  /**
    `reset_reminders_for_next_period` at `now`: every active subscription's
    date is recomputed, and every reminder of a subscription the calculator
    returned a date for is marked unsent, whether or not the date changed.
  */
  method ResetRemindersForNextPeriod(db: Database, now: DateTime)
    requires db.Valid() && Valid(now)
    modifies db`reminders, db.subscriptions`nextPaymentDate
    ensures db.Valid()
    ensures forall k :: 0 <= k < |db.subscriptions| ==> DateRecomputed(db.subscriptions[k], old(db.subscriptions[k].nextPaymentDate), now)
    ensures db.reminders == RearmedAll(RearmedIds(db.subscriptions), old(db.reminders))
  {
    var subs := db.subscriptions;
    ghost var dates := seq(|subs|, k requires 0 <= k < |subs| reads subs => subs[k].nextPaymentDate);
    assert RearmedAll({}, db.reminders) == db.reminders;
    var j := 0;
    while j < |subs|
      invariant db.subscriptions == subs
      invariant RearmedUpTo(db, j, dates, old(db.reminders), now)
    {
      RearmNext(db, j, subs[j], now, dates, old(db.reminders));
      j := j + 1;
    }
    assert subs[..j] == subs;
  }
}
