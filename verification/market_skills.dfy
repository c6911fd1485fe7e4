/**
 * The `market_skills` tool: switches the market chart, quotes exchange rates
 * and prepares the converter. Every call first asks the host to open the
 * market tab. Number formatting (`toLocaleString`, `toFixed(2)`) is supplied
 * by the caller as functions.
 */
module MarketSkills {
  import opened Common
  import opened Strings
  import opened Seqs
  import opened MarketState

  /** The `action` argument; `Other` stands for an absent or unlisted action. */
  datatype Action = ViewChart | GetPrice | GetKurs | Convert | Other

  /** `amount` is None when the caller gave none. */
  datatype Args = Args(symbol: string, amount: Option<real>, action: Action)

  /** Number renderings the reply texts use. */
  datatype Format = Format(locale: real -> string, fixed2: real -> string)

  /** `symbol.toUpperCase().replace('USDT', '')`. */
  function CleanSymbol(symbol: string): (r: string)
    ensures forall i :: 0 <= i < |r| ==> !('a' <= r[i] <= 'z')
    ensures IndexOf(ToUpper(symbol), QuoteAsset).None? ==> r == ToUpper(symbol)
    ensures IndexOf(ToUpper(symbol), QuoteAsset).Some? ==>
      var i := IndexOf(ToUpper(symbol), QuoteAsset).value;
      r == ToUpper(symbol)[..i] + ToUpper(symbol)[i + |QuoteAsset|..]
  {
    StripQuote(ToUpper(symbol))
  }

  /** A tracked pair, written in any case, cleans to its symbol. */
  lemma CleanTrackedPair(i: nat, lower: bool)
    requires i < |TrackedPairs|
    ensures CleanSymbol(if lower then ToLower(TrackedPairs[i]) else TrackedPairs[i]) == TrackedSymbols[i]
  {
    var p := TrackedPairs[i];
    assert forall k :: 0 <= k < |p| ==> !('a' <= p[k] <= 'z');
    UpperOfLower(p);
    assert ToUpper(p) == p;
    InitialSymbols();
  }

  /** `amount` is truthy: present and not zero. */
  predicate AmountGiven(amount: Option<real>) {
    amount.Some? && amount.value != 0.0
  }

  /** The first rate with the given code (`rates.find`). */
  function FindRate(rates: seq<ExchangeRate>, code: string): (r: Option<ExchangeRate>)
    ensures r.Some? ==> r.value in rates && r.value.code == code
    ensures r.Some? ==> exists i :: 0 <= i < |rates| && r.value == rates[i] && forall j :: 0 <= j < i ==> rates[j].code != code
    ensures r.None? <==> forall i :: 0 <= i < |rates| ==> rates[i].code != code
  {
    match FindIndex(rates, (x: ExchangeRate) => x.code == code)
    case None => None
    case Some(i) => Some(rates[i])
  }

  /** The first asset with the given symbol (`assets.find`). */
  function FindAsset(assets: seq<Asset>, symbol: string): (r: Option<Asset>)
    ensures r.Some? ==> r.value in assets && r.value.symbol == symbol
    ensures r.Some? ==> exists i :: 0 <= i < |assets| && r.value == assets[i] && forall j :: 0 <= j < i ==> assets[j].symbol != symbol
    ensures r.None? <==> forall i :: 0 <= i < |assets| ==> assets[i].symbol != symbol
  {
    match AssetIndex(assets, symbol)
    case None => None
    case Some(i) => Some(assets[i])
  }

  /** `convert` with an amount: the converter is set to `amount` IDR into the requested currency. */
  function PrepareConversion(s: State, code: string, amount: real): (r: State)
    ensures r.convFrom == BaseCurrency && r.convTo == code && r.valFrom == amount && r.lastEdited == FromSide
    ensures r.assets == s.assets && r.rates == s.rates && r.selectedSymbol == s.selectedSymbol
    ensures r.valTo == s.valTo && r.currencies == s.currencies && r.rawRates == s.rawRates
  {
    s.(convFrom := BaseCurrency, convTo := code, valFrom := amount, lastEdited := FromSide)
  }

  function RateReply(rates: seq<ExchangeRate>, code: string, fmt: Format): (r: string)
    ensures FindRate(rates, code).None? ==> r == "Data kurs untuk " + code + " tidak ditemukan."
    ensures FindRate(rates, code).Some? ==>
      var x := FindRate(rates, code).value;
      r == "Kurs " + x.name + " (" + x.code + ") saat ini adalah Rp " + fmt.locale(x.rate) + "."
  {
    match FindRate(rates, code)
    case None => "Data kurs untuk " + code + " tidak ditemukan."
    case Some(x) => "Kurs " + x.name + " (" + x.code + ") saat ini adalah Rp " + fmt.locale(x.rate) + "."
  }

  function ChartReply(assets: seq<Asset>, symbol: string, fmt: Format): (r: string)
    ensures FindAsset(assets, symbol).None? ==> r == "Switched chart to " + symbol + ". Synchronizing data..."
    ensures FindAsset(assets, symbol).Some? ==>
      var a := FindAsset(assets, symbol).value;
      r == "Switched chart to " + symbol + ". Current price: $" + fmt.locale(a.price)
           + ". 24h Change: " + fmt.fixed2(a.change24h) + "%."
  {
    match FindAsset(assets, symbol)
    case None => "Switched chart to " + symbol + ". Synchronizing data..."
    case Some(a) =>
      "Switched chart to " + symbol + ". Current price: $" + fmt.locale(a.price)
      + ". 24h Change: " + fmt.fixed2(a.change24h) + "%."
  }

  /** The handler. */
  function Handle(hasSetTab: bool, s: State, args: Args, fmt: Format): (r: Reply<State>)
    ensures r.tab == (if hasSetTab then Some("market") else None)
    ensures args.action == Convert && AmountGiven(args.amount) ==>
      && r.state == PrepareConversion(s, CleanSymbol(args.symbol), args.amount.value)
      && r.text == "Konversi Rp " + fmt.locale(args.amount.value) + " ke " + CleanSymbol(args.symbol)
                   + " sudah disiapkan di tab Market."
    ensures (args.action == GetKurs || (args.action == Convert && !AmountGiven(args.amount))) ==>
      r.state == s && r.text == RateReply(s.rates, CleanSymbol(args.symbol), fmt)
    ensures args.action !in {GetKurs, Convert} ==>
      && r.state == SetSelectedSymbol(s, CleanSymbol(args.symbol))
      && r.text == ChartReply(s.assets, CleanSymbol(args.symbol), fmt)
  {
    var code := CleanSymbol(args.symbol);
    var tab := if hasSetTab then Some("market") else None;
    if args.action == GetKurs || args.action == Convert then
      if args.action == Convert && AmountGiven(args.amount) then
        Reply(PrepareConversion(s, code, args.amount.value),
              "Konversi Rp " + fmt.locale(args.amount.value) + " ke " + code + " sudah disiapkan di tab Market.", tab)
      else Reply(s, RateReply(s.rates, code, fmt), tab)
    else Reply(SetSelectedSymbol(s, code), ChartReply(s.assets, code, fmt), tab)
  }

  /**
   * After `convert` with an amount, the converter shows that many rupiah in
   * the requested currency whenever both raw rates are usable.
   */
  lemma ConvertShowsAmount(hasSetTab: bool, s: State, args: Args, fmt: Format)
    requires args.action == Convert && AmountGiven(args.amount)
    requires RateUsable(s.rawRates, BaseCurrency) && RateUsable(s.rawRates, CleanSymbol(args.symbol))
    ensures ValToComputed(Handle(hasSetTab, s, args, fmt).state) * s.rawRates[BaseCurrency]
            == args.amount.value * s.rawRates[CleanSymbol(args.symbol)]
  {
    var code := CleanSymbol(args.symbol);
    var t := PrepareConversion(s, code, args.amount.value);
    assert Handle(hasSetTab, s, args, fmt).state == t;
    assert t.lastEdited == FromSide && RateUsable(t.rawRates, t.convFrom) && RateUsable(t.rawRates, t.convTo);
    assert ValToComputed(t) * t.rawRates[t.convFrom] == t.valFrom * t.rawRates[t.convTo];
    assert t.rawRates[t.convFrom] == s.rawRates[BaseCurrency] && t.rawRates[t.convTo] == s.rawRates[code];
  }

  /** After a chart switch to a tracked symbol, the selected asset is that symbol's asset. */
  lemma ChartSelectsAsset(hasSetTab: bool, s: State, args: Args, fmt: Format)
    requires args.action !in {GetKurs, Convert}
    requires FindAsset(s.assets, CleanSymbol(args.symbol)).Some?
    ensures SelectedAsset(Handle(hasSetTab, s, args, fmt).state) == FindAsset(s.assets, CleanSymbol(args.symbol))
  {
  }
}
