/**
  The browser-side currency helpers of static/js/main.js: `convertCurrency`
  over the nested rate object `rates[from][to]`, and `formatCurrency`.
*/
module MainJs {
  import opened Optional
  import Calendar
  import Models
  import Utils

  /** `window.exchangeRates`: for each base currency, its rates to the targets. */
  type Rates = map<string, map<string, real>>

  /**
    `rates[from] && rates[from][to]`: a stored rate counts only when present and
    truthy, that is non-zero.
  */
  function Rate(rates: Rates, from: string, to: string): (r: Option<real>)
    ensures r.Some? <==> from in rates && to in rates[from] && rates[from][to] != 0.0
    ensures r.Some? ==> r.value == rates[from][to] && r.value != 0.0
  {
    if from in rates && to in rates[from] && rates[from][to] != 0.0 then Some(rates[from][to]) else None
  }

  /**
    `convertCurrency(amount, from, to)`: the amount for equal currencies, the
    direct rate if usable, otherwise the bridge `amount · rates[from].USD ·
    rates.USD[to]` when both legs are usable, otherwise the amount unchanged.
  */
  function ConvertCurrency(rates: Rates, amount: real, from: string, to: string): real {
    if from == to then amount
    else match Rate(rates, from, to)
      case Some(rate) => amount * rate
      case None =>
        match (Rate(rates, from, "USD"), Rate(rates, "USD", to))
        case (Some(fromUsd), Some(usdTo)) =>
          var amountInUsd := amount * fromUsd;
          amountInUsd * usdTo
        case _ => amount
  }

  /** Equal currencies convert to the amount itself, whatever the rates. */
  lemma ConvertSameCurrency(rates: Rates, amount: real, currency: string)
    ensures ConvertCurrency(rates, amount, currency, currency) == amount
  {
  }

  /** A usable direct rate gives `amount · rate`. */
  lemma ConvertDirectRate(rates: Rates, amount: real, from: string, to: string)
    requires from != to && Rate(rates, from, to).Some?
    ensures ConvertCurrency(rates, amount, from, to) == amount * rates[from][to]
  {
  }

  /** A stored zero rate counts as absent: removing it does not change any conversion. */
  lemma ZeroRateIsAbsent(rates: Rates, amount: real, from: string, to: string, a: string, b: string)
    requires a in rates && b in rates[a] && rates[a][b] == 0.0
    ensures ConvertCurrency(rates, amount, from, to) == ConvertCurrency(rates[a := rates[a] - {b}], amount, from, to)
  {
    var without := rates[a := rates[a] - {b}];
    forall x, y ensures Rate(without, x, y) == Rate(rates, x, y) {
      if x == a && y != b && y in rates[a] {
        assert y in without[a] && without[a][y] == rates[a][y];
      }
    }
    assert Rate(without, from, to) == Rate(rates, from, to);
    assert Rate(without, from, "USD") == Rate(rates, from, "USD");
    assert Rate(without, "USD", to) == Rate(rates, "USD", to);
  }

  /**
    Without a usable direct rate the bridge is the composition of its legs:
    converting to USD and then from USD gives the same result.
  */
  lemma BridgeIsComposition(rates: Rates, amount: real, from: string, to: string)
    requires from != to && from != "USD" && to != "USD"
    requires Rate(rates, from, to).None?
    requires Rate(rates, from, "USD").Some? && Rate(rates, "USD", to).Some?
    ensures ConvertCurrency(rates, amount, from, to) == amount * rates[from]["USD"] * rates["USD"][to]
    ensures ConvertCurrency(rates, amount, from, to)
         == ConvertCurrency(rates, ConvertCurrency(rates, amount, from, "USD"), "USD", to)
  {
  }

  /** Without a usable direct rate and with a missing or zero leg, the amount comes back unchanged. */
  lemma ConvertWithoutPath(rates: Rates, amount: real, from: string, to: string)
    requires Rate(rates, from, to).None?
    requires Rate(rates, from, "USD").None? || Rate(rates, "USD", to).None?
    ensures ConvertCurrency(rates, amount, from, to) == amount
  {
  }

  /**
    The same two stored legs, 1 EUR = 2 USD and 1 USD = 3 CZK, and no direct
    EUR→CZK rate: the browser converts 10 EUR to 60 CZK, the server to 15 CZK.
  */
  lemma ServerAndBrowserBridgesDisagree(updatedAt: Calendar.DateTime)
    ensures var table := [Models.ExchangeRate("EUR", "USD", 2.0, updatedAt), Models.ExchangeRate("USD", "CZK", 3.0, updatedAt)];
            && ConvertCurrency(map["EUR" := map["USD" := 2.0], "USD" := map["CZK" := 3.0]], 10.0, "EUR", "CZK") == 60.0
            && Utils.ConvertCurrency(table, 10.0, "EUR", "CZK") == 15.0
  {
    var table := [Models.ExchangeRate("EUR", "USD", 2.0, updatedAt), Models.ExchangeRate("USD", "CZK", 3.0, updatedAt)];
    assert !Utils.IsPair(table[0], "EUR", "CZK") && !Utils.IsPair(table[1], "EUR", "CZK");
    assert Utils.FindRow(table, "EUR", "USD") == Some(0);
    assert !Utils.IsPair(table[0], "USD", "CZK");
    assert Utils.FindRow(table[1..], "USD", "CZK") == Some(0);
    assert Utils.FindRow(table, "USD", "CZK") == Some(1);
    Utils.ConvertBridge(table, 10.0, "EUR", "CZK", 2.0, 3.0);
  }

  /** `currencySymbols[currency] || currency`. */
  function CurrencySymbol(currency: string): (r: string)
    ensures r != "" || currency == ""
  {
    var symbols := map["USD" := "$", "EUR" := "€", "CZK" := "Kč", "PLN" := "zł"];
    if currency in symbols && symbols[currency] != "" then symbols[currency] else currency
  }

  /**
    `formatCurrency` with the amount already rendered as `amountText`: CZK and
    PLN get the symbol after a space, every other code gets it in front.
  */
  function FormatCurrency(amountText: string, currency: string): string {
    var symbol := CurrencySymbol(currency);
    if currency == "CZK" || currency == "PLN" then amountText + " " + symbol else symbol + amountText
  }

  /** The browser and the server place and spell the symbol identically. */
  lemma FormatCurrencyAgreesWithServer(amountText: string, currency: string)
    ensures FormatCurrency(amountText, currency) == Utils.FormatCurrency(amountText, currency)
  {
    var symbol := CurrencySymbol(currency);
    assert symbol == Utils.CurrencySymbol(currency);
    if Utils.SymbolAfterAmount(currency) {
      assert Utils.FormatCurrency(amountText, currency) == amountText + " " + symbol;
    } else {
      assert Utils.FormatCurrency(amountText, currency) == symbol + amountText;
    }
  }
}
