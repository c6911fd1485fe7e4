/**
 * The market tab's state container (`MarketState`): the table of tracked
 * crypto assets, updated by symbol from the 24h ticker snapshot and from the
 * ticker stream; the exchange-rate table derived from USD-based rates; and the
 * guards of the two-way currency converter. Prices are `real`s: the model
 * treats the source's floating point as exact arithmetic.
 */
module MarketState {
  import opened Common
  import opened Strings
  import opened Seqs

  datatype Asset = Asset(
    symbol: string,
    pair: string,
    price: real,
    change24h: real,
    high24h: real,
    low24h: real,
    volume: real)

  datatype Currency = Currency(code: string, name: string)

  datatype ExchangeRate = ExchangeRate(code: string, name: string, rate: real)

  /** Which converter field the user edited last. */
  datatype Side = FromSide | ToSide

  datatype State = State(
    assets: seq<Asset>,
    currencies: seq<Currency>,
    rates: seq<ExchangeRate>,
    selectedSymbol: string,
    convFrom: string,
    convTo: string,
    valFrom: real,
    valTo: real,
    lastEdited: Side,
    rawRates: map<string, real>)

  const QuoteAsset := "USDT"
  const BaseCurrency := "IDR"

  /** The tracked trading pairs, in display order. */
  const TrackedPairs: seq<string> := [
    "BTCUSDT", "ETHUSDT", "SOLUSDT", "BNBUSDT", "ADAUSDT", "DOTUSDT",
    "DOGEUSDT", "XRPUSDT", "LINKUSDT", "MATICUSDT", "AVAXUSDT", "UNIUSDT"]

  /** The same pairs without their quote asset. */
  const TrackedSymbols: seq<string> := [
    "BTC", "ETH", "SOL", "BNB", "ADA", "DOT", "DOGE", "XRP", "LINK", "MATIC", "AVAX", "UNI"]

  /** The converter's currencies; IDR is the base the rates are quoted in. */
  const Currencies: seq<Currency> := [
    Currency("IDR", "Indonesian Rupiah"), Currency("USD", "US Dollar"), Currency("EUR", "Euro"),
    Currency("JPY", "JP Yen"), Currency("GBP", "GB Pound"), Currency("SGD", "SG Dollar"),
    Currency("SAR", "SA Riyal")]

  /* ---------- symbols ---------- */

  /** `pair.replace('USDT', '')`: drops the first "USDT". */
  function StripQuote(pair: string): string {
    ReplaceFirst(pair, QuoteAsset, "")
  }

  /** `base` does not end in 'U', 'S' or 'D', so it cannot end in a proper prefix of "USDT". */
  predicate EndsOutsideQuote(base: string) {
    |base| == 0 || base[|base| - 1] !in "USD"
  }

  /** In `base + "USDT"`, no match of "USDT" starts inside `base` under the conditions above. */
  lemma NoMatchInsideBase(base: string, j: nat)
    requires !Contains(base, QuoteAsset) && EndsOutsideQuote(base)
    requires j < |base|
    ensures !OccursAt(base + QuoteAsset, QuoteAsset, j)
  {
    var s := base + QuoteAsset;
    if j + 4 <= |base| {
      assert s[j..j + 4] == base[j..j + 4];
      assert !OccursAt(base, QuoteAsset, j);
    } else {
      var k := |base| - j;
      assert s[|base| - 1] == base[|base| - 1];
      assert s[j + k - 1] !in "USD";
      assert QuoteAsset[k - 1] in "USD";
    }
  }

  /** Stripping undoes appending the quote asset when no earlier match can exist. */
  lemma StripQuoteOfPair(base: string)
    requires !Contains(base, QuoteAsset) && EndsOutsideQuote(base)
    ensures StripQuote(base + QuoteAsset) == base
  {
    var s := base + QuoteAsset;
    assert OccursAt(s, QuoteAsset, |base|);
    forall j: nat | j < |base|
      ensures !OccursAt(s, QuoteAsset, j)
    {
      NoMatchInsideBase(base, j);
    }
    var i := IndexOf(s, QuoteAsset).value;
    assert i == |base|;
    assert s[..i] == base;
  }

  /* ---------- construction ---------- */

  function ZeroAsset(pair: string): Asset {
    Asset(StripQuote(pair), pair, 0.0, 0.0, 0.0, 0.0, 0.0)
  }

  /** The constructor: one zeroed asset per tracked pair, "BTC" selected, the converter at 1 USD to IDR. */
  function Initial(): (r: State)
    ensures |r.assets| == |TrackedPairs|
    ensures forall i :: 0 <= i < |TrackedPairs| ==>
      && r.assets[i].pair == TrackedPairs[i]
      && r.assets[i].symbol == StripQuote(TrackedPairs[i])
      && r.assets[i].price == 0.0 && r.assets[i].change24h == 0.0 && r.assets[i].high24h == 0.0
      && r.assets[i].low24h == 0.0 && r.assets[i].volume == 0.0
    ensures r.selectedSymbol == "BTC" && r.currencies == Currencies && r.rates == [] && r.rawRates == map[]
    ensures r.convFrom == "USD" && r.convTo == "IDR" && r.valFrom == 1.0 && r.valTo == 0.0 && r.lastEdited == FromSide
  {
    State(seq(|TrackedPairs|, i requires 0 <= i < |TrackedPairs| => ZeroAsset(TrackedPairs[i])),
          Currencies, [], "BTC", "USD", "IDR", 1.0, 0.0, FromSide, map[])
  }

  /** The constructor's symbols are the tracked pairs without "USDT". */
  lemma InitialSymbols()
    ensures forall i :: 0 <= i < |TrackedPairs| ==> Initial().assets[i].symbol == TrackedSymbols[i]
  {
    forall i | 0 <= i < |TrackedPairs|
      ensures StripQuote(TrackedPairs[i]) == TrackedSymbols[i]
    {
      TrackedPairSplits(i);
      StripTracked(TrackedSymbols[i]);
    }
  }

  /** Each tracked pair is its symbol followed by "USDT", and the symbol cannot hide another match. */
  lemma TrackedPairSplits(i: nat)
    requires i < |TrackedPairs|
    ensures TrackedPairs[i] == TrackedSymbols[i] + QuoteAsset
    ensures |TrackedSymbols[i]| < 4 || 'U' !in TrackedSymbols[i]
    ensures EndsOutsideQuote(TrackedSymbols[i])
  {
  }

  /** A tracked pair whose base cannot hide an earlier "USDT" strips back to its base. */
  lemma StripTracked(base: string)
    requires |base| < 4 || 'U' !in base
    requires EndsOutsideQuote(base)
    ensures StripQuote(base + QuoteAsset) == base
  {
    NoQuoteInShort(base);
    StripQuoteOfPair(base);
  }

  /** A string without 'U' contains no "USDT". */
  lemma NoQuoteWithoutU(base: string)
    requires 'U' !in base
    ensures !Contains(base, QuoteAsset)
  {
    forall j: nat
      ensures !OccursAt(base, QuoteAsset, j)
    {
      if j + 4 <= |base| {
        assert base[j..j + 4][0] == base[j] != 'U';
      }
    }
  }

  /** A base shorter than "USDT", or one without a 'U', does not contain it. */
  lemma NoQuoteInShort(base: string)
    requires |base| < 4 || 'U' !in base
    ensures !Contains(base, QuoteAsset)
  {
    if 'U' !in base {
      NoQuoteWithoutU(base);
    }
  }

  /* ---------- ticker updates ---------- */

  /** The index of the asset with the given symbol (`findIndex`). */
  function AssetIndex(assets: seq<Asset>, symbol: string): (r: Option<nat>)
    ensures r.Some? ==> r.value < |assets| && assets[r.value].symbol == symbol
    ensures r.Some? ==> forall j :: 0 <= j < r.value ==> assets[j].symbol != symbol
    ensures r.None? ==> forall j :: 0 <= j < |assets| ==> assets[j].symbol != symbol
  {
    FindIndex(assets, (a: Asset) => a.symbol == symbol)
  }

  /** One entry of the 24h snapshot; a field is None when `parseFloat` gives NaN. */
  datatype SnapshotItem = SnapshotItem(
    symbol: string,
    lastPrice: Option<real>,
    priceChangePercent: Option<real>,
    highPrice: Option<real>,
    lowPrice: Option<real>,
    quoteVolume: Option<real>)

  /** `parseFloat(x) || 0`. */
  function NumberOr0(x: Option<real>): real {
    x.GetOr(0.0)
  }

  /** The only asset that changes is the one at `i`; the table keeps its length. */
  ghost predicate OnlyChanged(r: seq<Asset>, s: seq<Asset>, i: nat) {
    |r| == |s| && forall j :: 0 <= j < |s| && j != i ==> r[j] == s[j]
  }

  /** One snapshot entry: replaces the whole record of the matching asset; unknown symbols are ignored. */
  function ApplySnapshotItem(assets: seq<Asset>, item: SnapshotItem): (r: seq<Asset>)
    ensures AssetIndex(assets, StripQuote(item.symbol)).None? ==> r == assets
    ensures AssetIndex(assets, StripQuote(item.symbol)).Some? ==>
      var i := AssetIndex(assets, StripQuote(item.symbol)).value;
      && OnlyChanged(r, assets, i)
      && r[i] == Asset(StripQuote(item.symbol), item.symbol, NumberOr0(item.lastPrice),
                       NumberOr0(item.priceChangePercent), NumberOr0(item.highPrice),
                       NumberOr0(item.lowPrice), NumberOr0(item.quoteVolume))
  {
    var symbol := StripQuote(item.symbol);
    match AssetIndex(assets, symbol)
    case None => assets
    case Some(i) =>
      assets[i := Asset(symbol, item.symbol, NumberOr0(item.lastPrice), NumberOr0(item.priceChangePercent),
                        NumberOr0(item.highPrice), NumberOr0(item.lowPrice), NumberOr0(item.quoteVolume))]
  }

  /** Applying the same snapshot entry twice changes nothing more than applying it once. */
  lemma SnapshotItemIdempotent(assets: seq<Asset>, item: SnapshotItem)
    ensures ApplySnapshotItem(ApplySnapshotItem(assets, item), item) == ApplySnapshotItem(assets, item)
  {
    var symbol := StripQuote(item.symbol);
    var once := ApplySnapshotItem(assets, item);
    if AssetIndex(assets, symbol).Some? {
      var i := AssetIndex(assets, symbol).value;
      assert once[i].symbol == symbol;
      assert AssetIndex(once, symbol) == Some(i);
    }
  }

  /** The asset record a snapshot entry writes. */
  function ItemAsset(item: SnapshotItem): Asset {
    Asset(StripQuote(item.symbol), item.symbol, NumberOr0(item.lastPrice), NumberOr0(item.priceChangePercent),
          NumberOr0(item.highPrice), NumberOr0(item.lowPrice), NumberOr0(item.quoteVolume))
  }

  /** The position of the last snapshot entry whose pair strips to `symbol`. */
  function LastEntry(items: seq<SnapshotItem>, symbol: string): (r: Option<nat>)
    decreases |items|
    ensures r.Some? ==> r.value < |items| && StripQuote(items[r.value].symbol) == symbol
    ensures r.Some? ==> forall k :: r.value < k < |items| ==> StripQuote(items[k].symbol) != symbol
    ensures r.None? <==> forall k :: 0 <= k < |items| ==> StripQuote(items[k].symbol) != symbol
  {
    if |items| == 0 then None
    else
      assert forall k :: 1 <= k < |items| ==> items[1..][k - 1] == items[k];
      match LastEntry(items[1..], symbol)
      case Some(k) => Some(k + 1)
      case None => if StripQuote(items[0].symbol) == symbol then Some(0) else None
  }

  /** Tables whose rows carry the same symbols find every symbol at the same row. */
  lemma SameSymbolsSameIndex(a: seq<Asset>, b: seq<Asset>, symbol: string)
    requires |a| == |b| && forall j :: 0 <= j < |a| ==> a[j].symbol == b[j].symbol
    ensures AssetIndex(a, symbol) == AssetIndex(b, symbol)
  {
  }

  /** What the snapshot leaves in row `j`: only the first row of a symbol is written, by the symbol's last entry. */
  ghost predicate SnapshotRowAfter(r: seq<Asset>, assets: seq<Asset>, items: seq<SnapshotItem>, j: nat)
    requires j < |r| == |assets|
  {
    var symbol := assets[j].symbol;
    if AssetIndex(assets, symbol) != Some(j) then r[j] == assets[j]
    else match LastEntry(items, symbol)
      case None => r[j] == assets[j]
      case Some(k) => r[j] == ItemAsset(items[k])
  }

  /** The first entry followed by the rest leaves every row as the whole snapshot would. */
  lemma SnapshotStep(assets: seq<Asset>, items: seq<SnapshotItem>, rest: seq<Asset>)
    requires |items| > 0 && |rest| == |assets|
    requires forall j :: 0 <= j < |rest| ==>
      SnapshotRowAfter(rest, ApplySnapshotItem(assets, items[0]), items[1..], j)
    ensures forall j :: 0 <= j < |rest| ==> SnapshotRowAfter(rest, assets, items, j)
  {
    var once := ApplySnapshotItem(assets, items[0]);
    assert forall j :: 0 <= j < |assets| ==> once[j].symbol == assets[j].symbol;
    forall j | 0 <= j < |rest|
      ensures SnapshotRowAfter(rest, assets, items, j)
    {
      var symbol := assets[j].symbol;
      SameSymbolsSameIndex(once, assets, symbol);
      assert SnapshotRowAfter(rest, once, items[1..], j);
      assert forall k :: 1 <= k < |items| ==> items[1..][k - 1] == items[k];
    }
  }

  /**
   * The snapshot applied entry by entry, in order. Each row that is the first
   * with its symbol ends as the record of that symbol's last entry; every
   * other row is left as it was.
   */
  function ApplySnapshot(assets: seq<Asset>, items: seq<SnapshotItem>): (r: seq<Asset>)
    decreases |items|
    ensures |r| == |assets|
    ensures forall j :: 0 <= j < |assets| ==> r[j].symbol == assets[j].symbol
    ensures forall j :: 0 <= j < |assets| ==> SnapshotRowAfter(r, assets, items, j)
  {
    if |items| == 0 then assets
    else
      var rest := ApplySnapshot(ApplySnapshotItem(assets, items[0]), items[1..]);
      SnapshotStep(assets, items, rest);
      rest
  }

  /** A stream message; `s` is the pair, the other fields are the parsed numbers. */
  datatype StreamMessage = StreamMessage(s: Option<string>, c: real, P: real, h: real, l: real, q: real)

  /** One stream message: updates the numbers of the matching asset, keeping its symbol and pair. */
  function ApplyStreamMessage(assets: seq<Asset>, msg: StreamMessage): (r: seq<Asset>)
    ensures !Truthy(msg.s) ==> r == assets
    ensures Truthy(msg.s) && AssetIndex(assets, StripQuote(msg.s.value)).None? ==> r == assets
    ensures Truthy(msg.s) && AssetIndex(assets, StripQuote(msg.s.value)).Some? ==>
      var i := AssetIndex(assets, StripQuote(msg.s.value)).value;
      && OnlyChanged(r, assets, i)
      && r[i] == assets[i].(price := msg.c, change24h := msg.P, high24h := msg.h, low24h := msg.l, volume := msg.q)
  {
    if !Truthy(msg.s) then assets
    else
      match AssetIndex(assets, StripQuote(msg.s.value))
      case None => assets
      case Some(i) =>
        assets[i := assets[i].(price := msg.c, change24h := msg.P, high24h := msg.h, low24h := msg.l, volume := msg.q)]
  }

  /** Delivering the same stream message twice leaves the table as one delivery does. */
  lemma StreamMessageIdempotent(assets: seq<Asset>, msg: StreamMessage)
    ensures ApplyStreamMessage(ApplyStreamMessage(assets, msg), msg) == ApplyStreamMessage(assets, msg)
  {
    if Truthy(msg.s) {
      var symbol := StripQuote(msg.s.value);
      var once := ApplyStreamMessage(assets, msg);
      if AssetIndex(assets, symbol).Some? {
        var i := AssetIndex(assets, symbol).value;
        assert once[i].symbol == symbol;
        assert AssetIndex(once, symbol) == Some(i);
      }
    }
  }

  /** `selectedAsset`: the asset of the selected symbol, else the first asset (None for an empty table). */
  function SelectedAsset(s: State): (r: Option<Asset>)
    ensures r.Some? && r.value.symbol == s.selectedSymbol ==> r.value in s.assets
    ensures r.Some? && r.value.symbol == s.selectedSymbol ==>
      exists i :: 0 <= i < |s.assets| && r.value == s.assets[i] && forall j :: 0 <= j < i ==> s.assets[j].symbol != s.selectedSymbol
    ensures (exists i :: 0 <= i < |s.assets| && s.assets[i].symbol == s.selectedSymbol) ==>
      r.Some? && r.value.symbol == s.selectedSymbol
    ensures (forall i :: 0 <= i < |s.assets| ==> s.assets[i].symbol != s.selectedSymbol) ==>
      r == if |s.assets| == 0 then None else Some(s.assets[0])
  {
    match AssetIndex(s.assets, s.selectedSymbol)
    case Some(i) => Some(s.assets[i])
    case None => if |s.assets| == 0 then None else Some(s.assets[0])
  }

  /* ---------- converter ---------- */

  /** A raw rate is usable when present and non-zero (`!rawRates[c]` is false). */
  predicate RateUsable(raw: map<string, real>, code: string) {
    code in raw && raw[code] != 0.0
  }

  /** `x / from * to`: an amount in units of `from` expressed in units of `to`. */
  function Scale(x: real, from: real, to: real): (r: real)
    requires from != 0.0
    ensures r * from == x * to
  {
    x / from * to
  }

  /** `valToComputed`: the stored `valTo` unless `from` was edited last and both rates are usable. */
  function ValToComputed(s: State): (r: real)
    ensures s.lastEdited == ToSide || !RateUsable(s.rawRates, s.convFrom) || !RateUsable(s.rawRates, s.convTo)
      ==> r == s.valTo
    ensures s.lastEdited == FromSide && RateUsable(s.rawRates, s.convFrom) && RateUsable(s.rawRates, s.convTo)
      ==> r * s.rawRates[s.convFrom] == s.valFrom * s.rawRates[s.convTo]
  {
    if s.lastEdited == ToSide || !RateUsable(s.rawRates, s.convFrom) || !RateUsable(s.rawRates, s.convTo) then s.valTo
    else Scale(s.valFrom, s.rawRates[s.convFrom], s.rawRates[s.convTo])
  }

  /** `valFromComputed`: the mirror image of `ValToComputed`. */
  function ValFromComputed(s: State): (r: real)
    ensures s.lastEdited == FromSide || !RateUsable(s.rawRates, s.convFrom) || !RateUsable(s.rawRates, s.convTo)
      ==> r == s.valFrom
    ensures s.lastEdited == ToSide && RateUsable(s.rawRates, s.convFrom) && RateUsable(s.rawRates, s.convTo)
      ==> r * s.rawRates[s.convTo] == s.valTo * s.rawRates[s.convFrom]
  {
    if s.lastEdited == FromSide || !RateUsable(s.rawRates, s.convFrom) || !RateUsable(s.rawRates, s.convTo) then s.valFrom
    else Scale(s.valTo, s.rawRates[s.convTo], s.rawRates[s.convFrom])
  }

  /** Converting forward and then editing the result on the other side converts back to the original amount. */
  lemma ConvertRoundTrip(s: State)
    requires s.lastEdited == FromSide
    requires RateUsable(s.rawRates, s.convFrom) && RateUsable(s.rawRates, s.convTo)
    ensures ValFromComputed(s.(valTo := ValToComputed(s), lastEdited := ToSide)) == s.valFrom
  {
    var t := s.(valTo := ValToComputed(s), lastEdited := ToSide);
    var x := ValFromComputed(t);
    assert x * s.rawRates[s.convTo] == s.valFrom * s.rawRates[s.convTo];
  }

  /* ---------- exchange rates ---------- */

  /** `data.rates[code] || 1`. */
  function RateOr1(raw: map<string, real>, code: string): real {
    if RateUsable(raw, code) then raw[code] else 1.0
  }

  predicate IsForeign(c: Currency) {
    c.code != BaseCurrency
  }

  /** `currencies.filter((c) => c.code !== 'IDR')`. */
  function NonBase(cs: seq<Currency>): (r: seq<Currency>)
    ensures forall i :: 0 <= i < |r| ==> r[i].code != BaseCurrency
    ensures IsSubseq(r, cs)
    ensures forall i :: 0 <= i < |cs| && cs[i].code != BaseCurrency ==> cs[i] in r
    ensures forall c :: multiset(r)[c] == if c.code != BaseCurrency then multiset(cs)[c] else 0
  {
    var r := Filter(cs, IsForeign);
    assert forall c :: multiset(r)[c] == if IsForeign(c) then multiset(cs)[c] else 0 by {
      forall c ensures multiset(r)[c] == if IsForeign(c) then multiset(cs)[c] else 0 {
        FilterCount(cs, IsForeign, c);
      }
    }
    r
  }

  /** Each currency of `cs` priced in IDR: `idr` IDR per USD divided by the currency's units per USD (1 when missing or zero). */
  function RateTable(cs: seq<Currency>, raw: map<string, real>, idr: real): (r: seq<ExchangeRate>)
    ensures |r| == |cs|
    ensures forall i :: 0 <= i < |r| ==>
      && r[i].code == cs[i].code && r[i].name == cs[i].name
      && r[i].rate * RateOr1(raw, cs[i].code) == idr
  {
    seq(|cs|, i requires 0 <= i < |cs| => ExchangeRate(cs[i].code, cs[i].name, idr / RateOr1(raw, cs[i].code)))
  }

  /** The rate table: every currency of `cs` but IDR, priced in IDR. */
  function RatesFrom(cs: seq<Currency>, raw: map<string, real>, idr: real): seq<ExchangeRate> {
    RateTable(NonBase(cs), raw, idr)
  }

  /** With IDR listed first and only there, the rate table covers the rest of the list, in order. */
  lemma {:induction false} NonBaseOfBaseFirst(cs: seq<Currency>)
    requires |cs| > 0 && !IsForeign(cs[0])
    requires forall i :: 1 <= i < |cs| ==> IsForeign(cs[i])
    ensures NonBase(cs) == cs[1..]
  {
    assert Filter(cs, IsForeign) == Filter(cs[1..], IsForeign);
    FilterKeepsAll(cs[1..], IsForeign);
  }

  /**
   * Applying a forex payload (`fetchForexData`): the raw rates are stored; with
   * a usable IDR rate the rate table is rebuilt and the converter recomputed
   * from the `from` side; without one nothing else changes.
   */
  function ApplyForex(s: State, raw: map<string, real>): (r: State)
    ensures r.rawRates == raw && r.assets == s.assets && r.selectedSymbol == s.selectedSymbol
    ensures r.currencies == s.currencies
    ensures r.convFrom == s.convFrom && r.convTo == s.convTo && r.valFrom == s.valFrom
    ensures !RateUsable(raw, BaseCurrency) ==> r == s.(rawRates := raw)
    ensures RateUsable(raw, BaseCurrency) ==> r.rates == RatesFrom(s.currencies, raw, raw[BaseCurrency]) && r.lastEdited == FromSide
    ensures RateUsable(raw, BaseCurrency) ==> r.valTo == ForexValTo(s, raw)
  {
    var withRaw := s.(rawRates := raw);
    if !RateUsable(raw, BaseCurrency) then withRaw
    else
      var recomputed := ForexValTo(s, raw);
      withRaw.(rates := RatesFrom(s.currencies, raw, raw[BaseCurrency]), lastEdited := FromSide, valTo := recomputed)
  }

  /**
   * The `valTo` a forex payload leaves: recomputed from `valFrom` whenever the
   * `from` rate is usable and the `to` rate is present, so a zero `to` rate
   * gives zero.
   */
  function ForexValTo(s: State, raw: map<string, real>): (r: real)
    ensures !(RateUsable(raw, s.convFrom) && s.convTo in raw) ==> r == s.valTo
    ensures RateUsable(raw, s.convFrom) && s.convTo in raw ==>
      r * raw[s.convFrom] == s.valFrom * raw[s.convTo]
    ensures RateUsable(raw, s.convFrom) && s.convTo in raw && raw[s.convTo] == 0.0 ==> r == 0.0
  {
    if RateUsable(raw, s.convFrom) && s.convTo in raw
    then Scale(s.valFrom, raw[s.convFrom], raw[s.convTo]) else s.valTo
  }

  /**
   * With the configured currencies, a forex payload with an IDR rate yields one
   * rate per currency after IDR (USD, EUR, JPY, GBP, SGD, SAR), in that order.
   */
  lemma ForexRateCodes(s: State, raw: map<string, real>)
    requires s.currencies == Currencies && RateUsable(raw, BaseCurrency)
    ensures |ApplyForex(s, raw).rates| == 6
    ensures forall i :: 0 <= i < 6 ==>
      ApplyForex(s, raw).rates[i].code == Currencies[i + 1].code && ApplyForex(s, raw).rates[i].name == Currencies[i + 1].name
  {
    var cs := s.currencies;
    assert forall i :: 1 <= i < |cs| ==> IsForeign(cs[i]);
    NonBaseOfBaseFirst(cs);
    assert ApplyForex(s, raw).rates == RateTable(cs[1..], raw, raw[BaseCurrency]);
  }

  /** After a forex payload with usable rates, the stored `valTo` is what the converter derives. */
  lemma ForexSettlesConverter(s: State, raw: map<string, real>)
    requires RateUsable(raw, BaseCurrency) && RateUsable(raw, s.convFrom) && RateUsable(raw, s.convTo)
    ensures ValToComputed(ApplyForex(s, raw)) == ApplyForex(s, raw).valTo
  {
    var r := ApplyForex(s, raw);
    assert r.valTo == ForexValTo(s, raw) == Scale(s.valFrom, raw[s.convFrom], raw[s.convTo]);
  }

  function SetSelectedSymbol(s: State, symbol: string): (r: State)
    ensures r.selectedSymbol == symbol && r == s.(selectedSymbol := symbol)
  {
    s.(selectedSymbol := symbol)
  }
}
