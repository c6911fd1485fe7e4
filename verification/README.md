# GinkoHub client core, modelled in Dafny

GinkoHub is a single-page personal dashboard. It has tabs for news, markets,
wisdom quotes, GitHub trends and link previews, plus an assistant that drives
the page through named tools ("skills"). This project models the state
containers behind those tabs and the tool handlers that change them. It also
models the quote-card layout, the quote scraper script, the translation
manager, the assistant's memory and the tool registry. Everything is written
as pure functions from a state to a new state, with named results and
contracts.

Layout, one module per source file:

| module | file | models |
|---|---|---|
| `NewsState` | news_state.dfy | `newsState.svelte.ts`: feed directory, selection, article cache |
| `RssSkills` | rss_skills.dfy | `rss_skills.ts`: the news tool |
| `MarketState` | market_state.dfy | `marketState.svelte.ts`: asset table, ticker updates, forex table, converter |
| `MarketSkills` | market_skills.dfy | `market_skills.ts`: the market tool |
| `WisdomState` | wisdom_state.dfy | `wisdomState.svelte.ts`: quote carousel and card style |
| `WisdomSkills` | wisdom_skills.dfy | `wisdom_skills.ts` |
| `AppState` | app_state.dfy | `appState.svelte.ts`: persona/accent shuffles, background, combo counter |
| `ThemeSkills`, `SystemSkills`, `EffectSkills`, `NavigationSkills` | *_skills.dfy | the matching tool handlers |
| `GithubState`, `GithubSkills` | github_state.dfy, github_skills.dfy | `githubState.svelte.ts`, `github_skills.ts` |
| `PreviewState` | preview_state.dfy | `previewState.svelte.ts` |
| `I18n` | i18n.dfy | `i18n.svelte.ts` |
| `Memory` | memory.dfy | `memory.svelte.ts` |
| `Tools` | tools.dfy | `tools.ts` |
| `QuoteGenerator` | quote_generator.dfy | `quoteGenerator.js`: fonts, word wrap, anchors, colours |
| `ScrapeQuotes` | scrape_quotes.dfy | `scripts/scrape-quotes.js`: cleanup, filtering, de-duplication |
| `JsNumbers` | parse_int.dfy | JavaScript `parseInt` and the fireworks intensity clamp |
| `Common`, `Strings`, `Seqs` | common.dfy, strings.dfy, seqs.dfy | `Option`, truthiness, JavaScript string and array built-ins |

How JavaScript maps onto the model:

- `undefined` and `null` become `None`.
- Truthiness of an optional string is `Truthy`: absent or `""` is falsy.
  `x || d` is `OrElse`, and a template literal that prints `undefined` is `Show`.
- `str.replace(string, ...)` replaces only the first match (`ReplaceFirst`).
- `%` truncates toward zero (`WisdomState.JsRem`).
- A property an object does not own is looked up on `Object.prototype`, so
  names such as "toString" or "constructor" are found (`InheritedNames`).
- `Object.entries` lists array-index keys first, in ascending numeric
  order, then the other keys in creation order (`Memory.Listing`).
- A string's `length` counts UTF-16 code units (`Strings.Utf16Length`).
- `parseInt` reads a sign, an optional `0x` prefix and the longest run of
  digits (`JsNumbers.ParseInt`).
- Host objects are explicit inputs:
  - the `setTab`, `setAccent` and fireworks hooks, and whether a browser window exists, become booleans;
  - random numbers become values in [0, 1);
  - the hour, fetch results and the `new URL(...)` check are parameters.
  - A handler returns a `Reply` (new state, reply text, tab requested), or an outcome record that lists the host calls it made.

## Model

| member | source | states |
|---|---|---|
| NewsState.FeedGroups | src/lib/features/news/newsState.svelte.ts:34-39 | a "Custom Feeds" group exists exactly when there are custom feeds, and it comes first; the bundled groups follow unchanged |
| NewsState.AllFeeds | src/lib/features/news/newsState.svelte.ts:41-43 | the flattened directory is the custom feeds followed by the bundled feeds |
| NewsState.FilteredArticles | src/lib/features/news/newsState.svelte.ts:45-48 | no selection shows every article; otherwise the articles whose source is selected, in cache order, each as many times as it is cached, and no other article |
| NewsState.Drop | src/lib/features/news/newsState.svelte.ts:92 | the URL is removed everywhere; every other entry keeps its order and its number of copies |
| NewsState.ToggleFeed | src/lib/features/news/newsState.svelte.ts:90-101 | a selected URL is removed everywhere, with every other entry kept in order and as often as before; an unselected one is appended; nothing else changes |
| NewsState.ToggleTwiceRestores | src/lib/features/news/newsState.svelte.ts:90-101 | toggling an unselected URL twice gives back the original state |
| NewsState.ToggleFetchesWhenNothingShown | src/lib/features/news/newsState.svelte.ts:90-99 | toggling starts a fetch (`ToggleStartsFetch`) exactly when it selects the feed and the filtered view it leads to shows no article from that feed |
| NewsState.SelectAll | src/lib/features/news/newsState.svelte.ts:103-110 | selecting all gives every directory URL in directory order; deselecting empties the selection |
| NewsState.SelectAllCoversDirectory | src/lib/features/news/newsState.svelte.ts:103-110 | after select-all, every directory feed's URL is selected |
| NewsState.DefaultSelection | src/lib/features/news/newsState.svelte.ts:57-60 | the default selection is the first five directory URLs, or all of them when there are fewer |
| NewsState.InitialSelection | src/lib/features/news/newsState.svelte.ts:54-60 | a saved selection wins; otherwise the default selection is used |
| NewsState.AddFeed | src/lib/features/news/newsState.svelte.ts:112-130 | an invalid URL changes nothing and fails; a valid one appends a custom feed and selects its URL once |
| NewsState.RemoveFeed | src/lib/features/news/newsState.svelte.ts:132-140 | the URL leaves the custom feeds, the article cache and the selection; every other entry survives in order, with the same number of copies |
| NewsState.FindFeed | src/lib/features/news/newsState.svelte.ts:147-149 | gives the first feed whose URL equals the query or whose name contains it, ignoring case; None when no feed matches |
| NewsState.SetSelectedFeed | src/lib/features/news/newsState.svelte.ts:146-157 | a found feed becomes selected: its URL is appended when it was not selected, and an already-selected feed leaves the selection unchanged; no match changes nothing |
| NewsState.FreshArticles | src/lib/features/news/newsState.svelte.ts:196-197 | keeps, in order, the incoming articles whose link is not cached, each as many times as it arrives, and nothing else |
| NewsState.MergeArticles | src/lib/features/news/newsState.svelte.ts:195-206 | nothing new leaves the state unchanged; otherwise the cache grows by the fresh articles and ends up sorted newest first |
| NewsState.LatestSortsAsNow | src/lib/features/news/newsState.svelte.ts:200-204 | after a merge, an article dated LATEST sorts as the current time: everything before it is dated no earlier than now, everything after it no later |
| NewsState.SavedArticles | src/lib/features/news/newsState.svelte.ts:76-80 | the first min(200, n) cached articles are saved: a prefix of the cache of exactly that length |
| RssSkills.ListFeedsReply | src/lib/ai/handlers/skills/rss_skills.ts:61-65 | lists every directory name and the active count, or "All" when nothing is selected |
| RssSkills.TabFor | src/lib/ai/handlers/skills/rss_skills.ts:58 | the news tab is requested exactly when the host offers `setTab` and the action is not `list_feeds` |
| RssSkills.SwitchFeedAction | src/lib/ai/handlers/skills/rss_skills.ts:67-72 | a missing source is an error; otherwise the selection follows `SetSelectedFeed` and the reply names the found feed |
| RssSkills.AddFeedReply | src/lib/ai/handlers/skills/rss_skills.ts:74-80 | refuses a missing source or one not starting with "http"; otherwise adds the feed under the given name or "Neural Source" |
| RssSkills.DeleteFeedAction | src/lib/ai/handlers/skills/rss_skills.ts:82-93 | missing or unmatched sources are errors; a bundled feed is refused; a custom feed is removed |
| RssSkills.DeleteOnlyCustom | src/lib/ai/handlers/skills/rss_skills.ts:82-93 | deleting never alters the bundled directory; any change removes a matched custom feed's URL from the custom feeds and the selection |
| RssSkills.HeadlinesTarget | src/lib/ai/handlers/skills/rss_skills.ts:115-121 | the URL read is the given source, else the first selected URL, else the first directory feed; None only when all three are missing |
| RssSkills.Take | src/lib/ai/handlers/skills/rss_skills.ts:126 | the first five titles, or all of them when there are fewer |
| RssSkills.HeadlinesReply | src/lib/ai/handlers/skills/rss_skills.ts:115-133 | a missing target gives the caught error; a failed fetch gives "RSS Fetch failed: " and its error; a success gives "Latest Headlines from ", the source or "primary source", then the first five titles joined by " \| ", or "undefined" when the feed has no item list |
| RssSkills.Handle | src/lib/ai/handlers/skills/rss_skills.ts:54-135 | the news tab is requested for every action but `list_feeds`; each action goes to its case; the mark/filter actions end in the error reply; unknown actions are ignored |
| MarketState.Initial | src/lib/features/market/marketState.svelte.ts:27-84 | one zeroed asset per tracked pair, symbol being the pair without "USDT"; BTC selected; converter at 1 USD to IDR |
| MarketState.InitialSymbols | src/lib/features/market/marketState.svelte.ts:45-79 | the constructor's symbols are BTC, ETH, ..., UNI: each pair with its quote asset stripped |
| MarketState.StripQuoteOfPair | src/lib/features/market/marketState.svelte.ts:72 | replacing the first "USDT" undoes appending it to a base that cannot hide an earlier match |
| MarketState.AssetIndex | src/lib/features/market/marketState.svelte.ts:187 | gives the first index with the symbol, or None when no asset has it |
| MarketState.ApplySnapshotItem | src/lib/features/market/marketState.svelte.ts:185-199 | replaces the whole record of the matching asset, with NaN fields read as 0; unknown symbols change nothing; other rows stay as they were |
| MarketState.SnapshotItemIdempotent | src/lib/features/market/marketState.svelte.ts:185-199 | applying a snapshot entry twice equals applying it once |
| MarketState.LastEntry | src/lib/features/market/marketState.svelte.ts:185-199 | gives the last snapshot entry whose pair strips to the symbol, or None when no entry does |
| MarketState.SameSymbolsSameIndex | src/lib/features/market/marketState.svelte.ts:187 | tables whose rows carry the same symbols find every symbol at the same row, so a written row never moves the lookup |
| MarketState.SnapshotStep | src/lib/features/market/marketState.svelte.ts:184-200 | applying the first entry and then the rest leaves each row as the whole snapshot does |
| MarketState.ApplySnapshot | src/lib/features/market/marketState.svelte.ts:184-200 | the table keeps its length and every row its symbol; the first row of each symbol ends as the record of that symbol's last entry (the last entry wins), and every other row is left as it was |
| MarketState.ApplyStreamMessage | src/lib/features/market/marketState.svelte.ts:213-233 | a message without a pair, or for an unknown symbol, changes nothing; otherwise only the matching row's numbers change |
| MarketState.StreamMessageIdempotent | src/lib/features/market/marketState.svelte.ts:213-233 | delivering a stream message twice equals delivering it once |
| MarketState.SelectedAsset | src/lib/features/market/marketState.svelte.ts:249-251 | the first asset with the selected symbol when one exists; otherwise the first asset, or None for an empty table |
| MarketState.Scale | src/lib/features/market/marketState.svelte.ts:91 | the converted amount is in the same proportion to the target rate as the amount is to the source rate |
| MarketState.ValToComputed | src/lib/features/market/marketState.svelte.ts:87-92 | the stored value unless the from side was edited last and both rates are usable; then the proportional conversion |
| MarketState.ValFromComputed | src/lib/features/market/marketState.svelte.ts:94-103 | the mirror image for the from field |
| MarketState.ConvertRoundTrip | src/lib/features/market/marketState.svelte.ts:87-103 | converting forward, then editing the result on the other side, converts back to the original amount |
| MarketState.NonBase | src/lib/features/market/marketState.svelte.ts:141-142 | keeps, in order, the currencies other than IDR, each as many times as it is listed, and no IDR entry |
| MarketState.RateTable | src/lib/features/market/marketState.svelte.ts:143-151 | each currency priced as IDR per USD divided by its own rate, or by 1 when that rate is missing or zero |
| MarketState.NonBaseOfBaseFirst | src/lib/features/market/marketState.svelte.ts:141-142 | with IDR listed only first, the filter is the rest of the list |
| MarketState.ApplyForex | src/lib/features/market/marketState.svelte.ts:136-158 | the raw rates are always stored; with a usable IDR rate the table is rebuilt and the converter recomputed from the from side; without one nothing else changes |
| MarketState.ForexValTo | src/lib/features/market/marketState.svelte.ts:155 | whenever the `from` rate is usable and the `to` rate present, the recomputed value is in proportion to the two raw rates (zero for a zero `to` rate); otherwise it is left unchanged |
| MarketState.ForexRateCodes | src/lib/features/market/marketState.svelte.ts:141-151 | with the configured currencies the table lists USD, EUR, JPY, GBP, SGD and SAR in that order |
| MarketState.ForexSettlesConverter | src/lib/features/market/marketState.svelte.ts:153-155 | after a forex payload with usable rates, the derived value and the stored value agree |
| MarketState.SetSelectedSymbol | src/lib/features/market/marketState.svelte.ts:253-255 | only the selected symbol changes |
| MarketSkills.CleanTrackedPair | src/lib/ai/handlers/skills/market_skills.ts:37 | a tracked pair in either case cleans to its symbol |
| MarketSkills.CleanSymbol | src/lib/ai/handlers/skills/market_skills.ts:37 | the symbol upper-cased with its first "USDT" removed; no lower-case letter is left |
| MarketSkills.FindRate | src/lib/ai/handlers/skills/market_skills.ts:51 | gives the first rate with the code, or None exactly when no rate has it |
| MarketSkills.FindAsset | src/lib/ai/handlers/skills/market_skills.ts:60 | gives the first asset with the symbol, or None exactly when no asset has it |
| MarketSkills.PrepareConversion | src/lib/ai/handlers/skills/market_skills.ts:42-48 | the converter is set to convert the amount of IDR into the code, edited from the from side; the raw rates, the stored target value and everything else stay as they were |
| MarketSkills.RateReply | src/lib/ai/handlers/skills/market_skills.ts:51-55 | quotes the found rate, or reports that the code is unknown |
| MarketSkills.ChartReply | src/lib/ai/handlers/skills/market_skills.ts:60-65 | quotes the found asset's price and change, or reports synchronisation |
| MarketSkills.Handle | src/lib/ai/handlers/skills/market_skills.ts:34-66 | convert with an amount prepares the converter; kurs, or convert without an amount, only replies; every other action switches the chart |
| MarketSkills.ConvertShowsAmount | src/lib/ai/handlers/skills/market_skills.ts:42-48 | after convert, the converter shows the amount of rupiah in the target currency whenever both rates are usable |
| MarketSkills.ChartSelectsAsset | src/lib/ai/handlers/skills/market_skills.ts:58-60 | after a chart switch to a known symbol, the selected asset is that symbol's asset |
| WisdomState.Initial | src/lib/features/wisdom/wisdomState.svelte.ts:6-21 | no quotes, index 0, the glass style (a known style), serif, centred, grayscale on, signals at 0 |
| WisdomState.JsRem | src/lib/features/wisdom/wisdomState.svelte.ts:51 | JavaScript `%`: for a non-negative operand this is the Euclidean remainder; otherwise the result has the operand's sign |
| WisdomState.Init | src/lib/features/wisdom/wisdomState.svelte.ts:23-28 | no quotes changes nothing; otherwise the quotes are stored and the index is in range |
| WisdomState.Next | src/lib/features/wisdom/wisdomState.svelte.ts:49-52 | an empty carousel is unchanged; otherwise the index advances and wraps to 0 |
| WisdomState.Prev | src/lib/features/wisdom/wisdomState.svelte.ts:53-57 | an empty carousel is unchanged; otherwise the index steps back and wraps to the last quote |
| WisdomState.PrevAfterNext | src/lib/features/wisdom/wisdomState.svelte.ts:49-57 | prev undoes next |
| WisdomState.NextAfterPrev | src/lib/features/wisdom/wisdomState.svelte.ts:49-57 | next undoes prev |
| WisdomState.NextNIndex | src/lib/features/wisdom/wisdomState.svelte.ts:49-52 | k calls of next move the index k places modulo the number of quotes |
| WisdomState.NextCycle | src/lib/features/wisdom/wisdomState.svelte.ts:49-52 | as many nexts as there are quotes return to the same quote |
| WisdomState.SetStyle | src/lib/features/wisdom/wisdomState.svelte.ts:30-35 | a configured style name, or a name every object inherits such as "toString", is taken; any other name changes nothing |
| WisdomState.StyleStaysFound | src/lib/features/wisdom/wisdomState.svelte.ts:30-35 | whatever names are passed in, the selected style stays one that `styleConfigs[...]` finds, and nothing else changes |
| WisdomState.SetFont | src/lib/features/wisdom/wisdomState.svelte.ts:37-39 | the font is taken as given; nothing else changes |
| WisdomState.SetAlign | src/lib/features/wisdom/wisdomState.svelte.ts:41-43 | the alignment is taken as given; nothing else changes |
| WisdomState.ToggleGrayscale | src/lib/features/wisdom/wisdomState.svelte.ts:45-47 | a given value is set; no value flips the mode |
| WisdomState.ToggleTwice | src/lib/features/wisdom/wisdomState.svelte.ts:45-47 | flipping twice restores the state |
| WisdomState.CurrentQuote | src/lib/features/wisdom/wisdomState.svelte.ts:8-11 | the addressed quote's text and author, each falling back to "Seeking wisdom..." / "Rumi" when missing or empty; never empty |
| WisdomState.TriggerNext | src/lib/features/wisdom/wisdomState.svelte.ts:60-62 | the next signal moves by one and every other field, the prev signal included, is unchanged |
| WisdomState.TriggerPrev | src/lib/features/wisdom/wisdomState.svelte.ts:63-65 | the prev signal moves by one and every other field, the next signal included, is unchanged |
| WisdomState.SignalsIndependent | src/lib/features/wisdom/wisdomState.svelte.ts:49-65 | navigation leaves the signals alone and the signals leave the shown quote alone |
| WisdomSkills.Handle | src/lib/ai/handlers/skills/wisdom_skills.ts:29-55 | the wisdom tab is requested; each action applies its state change (style, font and alignment only when data is given) with its reply |
| WisdomSkills.ToggleCallIdempotent | src/lib/ai/handlers/skills/wisdom_skills.ts:50-52 | the grayscale action sets rather than flips, so repeating it changes nothing |
| WisdomSkills.NextThenPrevCall | src/lib/ai/handlers/skills/wisdom_skills.ts:35-40 | a next call followed by a prev call restores the carousel |
| AppState.PickIndex | src/lib/state/appState.svelte.ts:65 | `floor(random * n)` is a valid index |
| AppState.DayPartOf | src/lib/state/appState.svelte.ts:59-64 | morning is 5-9, day 10-16, evening 17-20, night the rest; each both ways |
| AppState.BackgroundByTime | src/lib/state/appState.svelte.ts:58-66 | a member of the hour's set, or undefined exactly when that set is empty |
| AppState.ShufflePick | src/lib/state/appState.svelte.ts:76-90 | the do/while loop stops at the first draw that differs: it yields a differing member of the list chosen by one of the draws, or None when every draw was rejected |
| AppState.ShuffleNeedsAlternative | src/lib/state/appState.svelte.ts:76-90 | with no differing value the loop never ends, whatever the draws |
| AppState.ShufflePersona | src/lib/state/appState.svelte.ts:84-90 | the new persona differs from the current one and is a listed persona; nothing else changes |
| AppState.ShuffleAccent | src/lib/state/appState.svelte.ts:76-82 | the new accent has a different name and is a listed accent; nothing else changes |
| AppState.SetAccent | src/lib/state/appState.svelte.ts:68-74 | only the current accent changes |
| AppState.Init | src/lib/state/appState.svelte.ts:39-56 | a different, listed persona and the hour's background, then the saved accent if one was read back, else a listed accent with a different name; every other field is unchanged |
| AppState.InitSavedIgnoresAccentDraws | src/lib/state/appState.svelte.ts:46-49 | a saved accent returns before the accent shuffle, so the accent draws make no difference |
| AppState.InitNeedsTwoPersonas | src/lib/state/appState.svelte.ts:39-40 | with a single persona, which is the current one, the persona shuffle in init never ends |
| AppState.ComboScale | src/lib/state/appState.svelte.ts:121 | the scale grows by 0.02 per strike and is capped at 1.3 from 15 strikes on |
| AppState.Pow2 | src/lib/state/appState.svelte.ts:116 | the fireworks intensity 2^k: at least 1, doubling with each step, so above k |
| AppState.CountStrike | src/lib/state/appState.svelte.ts:114-128 | counts the strike; fires 2^(count/10) on every tenth strike when fireworks exist; shows the combo at its scale; latches the overload at 50; nothing else changes |
| AppState.AddStrike | src/lib/state/appState.svelte.ts:109-135 | shuffles the persona, then the accent, then counts the strike as `CountStrike`; None exactly when one of the shuffles has not finished within its draws |
| AppState.StrikeNeedsTwoPersonas | src/lib/state/appState.svelte.ts:109-111 | with a single persona a strike never gets past its persona shuffle |
| AppState.ResetCombo | src/lib/state/appState.svelte.ts:137-141 | the count returns to 0 unless overloaded; the combo is hidden at scale 1 |
| AppState.Strikes | src/lib/state/appState.svelte.ts:109-135 | a run of strikes keeps the persona and accent lists |
| AppState.StrikesCount | src/lib/state/appState.svelte.ts:109-141 | k strikes that finish add k to the count, keep the scale within 1-1.3, and an overload stays set |
| AppState.FiftyStrikesOverload | src/lib/state/appState.svelte.ts:125-128 | fifty strikes from zero, when they finish, latch the overload and show the modal |
| AppState.OverloadSurvivesReset | src/lib/state/appState.svelte.ts:125-141 | once overloaded, a strike followed by a reset keeps the counter |
| ThemeSkills.IsHexShapes | src/lib/ai/handlers/skills/theme_skills.ts:43 | the HEX test accepts exactly 3 or 6 hex digits, with or without one leading '#' |
| ThemeSkills.NormalizeHex | src/lib/ai/handlers/skills/theme_skills.ts:46 | the result starts with '#' and is still a HEX colour with a single '#' |
| ThemeSkills.NormalizeIdempotent | src/lib/ai/handlers/skills/theme_skills.ts:46 | normalising twice equals normalising once |
| ThemeSkills.FindAccent | src/lib/ai/handlers/skills/theme_skills.ts:51 | gives the first accent with exactly that name, or None exactly when no accent has it |
| ThemeSkills.ChangeTheme | src/lib/ai/handlers/skills/theme_skills.ts:42-57 | HEX input gives a custom accent; otherwise the lower-cased name is looked up; a miss lists the options and sets nothing |
| ThemeSkills.HexBeatsNames | src/lib/ai/handlers/skills/theme_skills.ts:43-51 | a HEX-shaped name is never looked up among the accents |
| ThemeSkills.ListThemes | src/lib/ai/handlers/skills/theme_skills.ts:33-39 | lists the accent names in order, or reports the missing theme system |
| ThemeSkills.Handle | src/lib/ai/handlers/skills/theme_skills.ts:30-62 | lists, changes the theme when the host allows it and data is given, and otherwise replies "Theme action completed." |
| SystemSkills.PurgeKeys | src/lib/ai/handlers/skills/system_skills.ts:72-77 | exactly the keys containing "puter" are removed; the other values are untouched |
| SystemSkills.PurgeIdempotent | src/lib/ai/handlers/skills/system_skills.ts:72-77 | purging twice equals purging once |
| SystemSkills.Purge | src/lib/ai/handlers/skills/system_skills.ts:70-77 | both web storages are purged |
| SystemSkills.Handle | src/lib/ai/handlers/skills/system_skills.ts:39-113 | each action with its prerequisites; storage changes only on a purge; fireworks only with data, clamped to 1-50; the aura is clicked only when the button exists; otherwise the fallback reply |
| SystemSkills.ThemeActionsAgree | src/lib/ai/handlers/skills/system_skills.ts:43-67 | this tool's theme actions set the same accent as the theme tool, and give the same reply exactly when the prerequisites hold |
| SystemSkills.FireworksAgree | src/lib/ai/handlers/skills/system_skills.ts:104-109 | with data it fires what the effects tool fires; without data it fires nothing, while the effects tool fires 10 |
| EffectSkills.EffectIntensity | src/lib/ai/handlers/skills/effect_skills.ts:46 | always within 1-50; with data, a parsed value within range is kept, above 50 gives 50, below 0 gives 1, and NaN or 0 gives 10 |
| EffectSkills.AbsentDataGivesTen | src/lib/ai/handlers/skills/effect_skills.ts:46 | missing data gives intensity 10 |
| EffectSkills.Handle | src/lib/ai/handlers/skills/effect_skills.ts:30-54 | fireworks need a fireworks system; the shuffle clicks the aura only with a window and the button present; other actions only reply |
| JsNumbers.ParseInt | src/lib/ai/handlers/skills/system_skills.ts:106 | NaN exactly when no digit follows the optional sign and "0x" prefix |
| JsNumbers.ParseIntOr10 | src/lib/ai/handlers/skills/system_skills.ts:106 | never 0; NaN and 0 become 10 |
| JsNumbers.Clamp1To50 | src/lib/ai/handlers/skills/system_skills.ts:106 | the result lies in 1-50 and equals the input when the input does |
| JsNumbers.Intensity | src/lib/ai/handlers/skills/system_skills.ts:106 | always within 1-50; a parsed value within range is kept, above 50 gives 50, a negative one gives 1, and NaN or 0 gives 10 |
| JsNumbers.ParseRendered | src/lib/ai/handlers/skills/system_skills.ts:106 | parsing the decimal rendering of a natural number gives it back |
| JsNumbers.IntensityOfRendered | src/lib/ai/handlers/skills/system_skills.ts:106-108 | a number from 1 to 50 is used unchanged as the intensity |
| JsNumbers.RenderedIndex | src/lib/ai/memory.svelte.ts:23 | the decimal rendering of a number below 2^32 - 1 is an array-index key of that value |
| JsNumbers.RenderedCanonical | src/lib/state/i18n.svelte.ts:36 | the decimal rendering of a natural number is in canonical form and reads back as that number |
| NavigationSkills.Resolve | src/lib/ai/handlers/skills/navigation_skills.ts:49-56 | go_home means about; an about section forces the about tab; "stats" is shown as "github"; the section is lower-cased |
| NavigationSkills.ResolveIsStable | src/lib/ai/handlers/skills/navigation_skills.ts:49-56 | resolving an already resolved place changes nothing |
| NavigationSkills.Handle | src/lib/ai/handlers/skills/navigation_skills.ts:46-71 | without setTab it fails; otherwise it opens the resolved tab, scrolls to the section when there is one, and names both |
| GithubState.Initial | src/lib/features/about/githubState.svelte.ts:2-4 | repositories mode, language "all", signal 0 |
| GithubState.ModeNamed | src/lib/features/about/githubState.svelte.ts:11 | only "repositories" and "developers" name a mode, each both ways |
| GithubState.ModeName | src/lib/features/about/githubState.svelte.ts:2 | a mode's name reads back as that mode |
| GithubState.SetMode | src/lib/features/about/githubState.svelte.ts:10-15 | a known mode is taken and signals a refresh; any other name changes nothing |
| GithubState.SetLanguage | src/lib/features/about/githubState.svelte.ts:17-20 | the language is taken and the signal moves by one |
| GithubState.CountEffective | src/lib/features/about/githubState.svelte.ts:10-20 | the number of calls that change the state: all of them exactly when every call is effective, none exactly when no call is |
| GithubState.SignalCountsCalls | src/lib/features/about/githubState.svelte.ts:10-20 | over any sequence of calls the signal grows by exactly the number of calls that changed something |
| GithubState.ModeStaysNamed | src/lib/features/about/githubState.svelte.ts:10-15 | a mode other than the starting one was named by one of the calls, and a run with no mode call keeps the mode |
| GithubSkills.Handle | src/lib/ai/handlers/skills/github_skills.ts:29-51 | the GitHub tab is requested; the mode is matched case-insensitively or refused; a missing language means "all"; refresh only moves the signal |
| GithubSkills.ModeIgnoresCase | src/lib/ai/handlers/skills/github_skills.ts:35-42 | any casing of "developers" selects developers and signals a refresh |
| GithubSkills.MissingLanguageMeansAll | src/lib/ai/handlers/skills/github_skills.ts:43-45 | without data the filter is "all" and the reply prints "undefined" |
| GithubSkills.RefreshKeepsFilters | src/lib/ai/handlers/skills/github_skills.ts:46-48 | refresh keeps mode and language and moves the signal on |
| PreviewState.Initial | src/lib/features/preview/previewState.svelte.ts:11-15 | only the WhatsApp preview is shown; no metadata, not loading, no error |
| PreviewState.TogglePreview | src/lib/features/preview/previewState.svelte.ts:21-28 | removes the first entry with the same name ignoring case, or appends the name when there is none |
| PreviewState.ToggleRemovesFirstOnly | src/lib/features/preview/previewState.svelte.ts:21-28 | only the first match is removed; later duplicates stay |
| PreviewState.ToggleTwiceRestores | src/lib/features/preview/previewState.svelte.ts:21-28 | toggling an absent platform twice restores the list |
| PreviewState.NormalizeUrl | src/lib/features/preview/previewState.svelte.ts:34-36 | the result starts with "http"; such input is kept, anything else gets "https://" |
| PreviewState.NormalizeUrlIdempotent | src/lib/features/preview/previewState.svelte.ts:34-36 | normalising twice equals normalising once |
| PreviewState.BeginFetch | src/lib/features/preview/previewState.svelte.ts:30-40 | empty input does nothing; otherwise the URL is normalised, loading is set, and the error and metadata are cleared |
| PreviewState.FillDefaults | src/lib/features/preview/previewState.svelte.ts:46-51 | each missing field gets its default; the title and description are never empty |
| PreviewState.FinishFetch | src/lib/features/preview/previewState.svelte.ts:42-59 | loading is always cleared; success fills the metadata with defaults, unless the host name is needed and `new URL` throws, which sets its message as the error; a reported failure or an exception sets the error and keeps the metadata |
| PreviewState.Fetch | src/lib/features/preview/previewState.svelte.ts:30-60 | a non-empty input ends with an http URL, not loading, and never both metadata and an error |
| PreviewState.EmptyPageDefaults | src/lib/features/preview/previewState.svelte.ts:44-51 | a page without metadata shows the defaults and the host name |
| I18n.Walk | src/lib/state/i18n.svelte.ts:35-38 | an empty path stays at the root |
| I18n.Step | src/lib/state/i18n.svelte.ts:36-37 | an object gives its own child, else a member inherited from `Object.prototype`, else undefined; a text gives its `length`, or the one-character text at a canonical decimal index below its length, else undefined; other values give undefined |
| I18n.WalkAppend | src/lib/state/i18n.svelte.ts:35-38 | walking a path in two pieces equals walking it at once |
| I18n.Substitute | src/lib/state/i18n.svelte.ts:41-43 | no variables leave the text as it is |
| I18n.SubstituteOne | src/lib/state/i18n.svelte.ts:42 | one variable replaces only the first `{name}` placeholder |
| I18n.SubstituteAbsent | src/lib/state/i18n.svelte.ts:41-43 | a variable whose `{name}` the text does not hold leaves the text unchanged |
| I18n.Root | src/lib/state/i18n.svelte.ts:33 | a known language gives its locale; an inherited name such as "toString" gives that member; any other name gives undefined |
| I18n.Translate | src/lib/state/i18n.svelte.ts:31-46 | an undefined root throws on its first lookup; a missing segment gives back the key; a text gets its placeholders filled; any other value comes back as is without variables and throws with them |
| I18n.DottedKeyFollowsPath | src/lib/state/i18n.svelte.ts:31-46 | a dotted key whose segments lead to a text translates to that text |
| I18n.PastLeafGivesKey | src/lib/state/i18n.svelte.ts:35-37 | segments beyond a text leaf give back the key unless the next one is "length" or an index inside the text |
| I18n.IndexIntoText | src/lib/state/i18n.svelte.ts:35-38 | a key that goes one segment past a text with a decimal index gives the character at that index |
| I18n.LengthOfText | src/lib/state/i18n.svelte.ts:35-38 | a key that goes one segment past a text with "length" gives the text's length, a number |
| I18n.SetLang | src/lib/state/i18n.svelte.ts:23-29 | the new language is in force, unchecked; saving it and the document attribute are not modelled |
| I18n.InitialLang | src/lib/state/i18n.svelte.ts:9-21 | outside a browser "en"; otherwise the saved language when `localesData[saved]` is found, else the browser's primary subtag when it is found, else "en"; the result is a known language, an inherited name, or "en" |
| I18n.BrowserSubtag | src/lib/state/i18n.svelte.ts:15-18 | a browser language "xx-YY" selects "xx" |
| Memory.Get | src/lib/ai/memory.svelte.ts:18-20 | an own value exactly when the key is an own property, and it is that key's value; otherwise a member inherited from `Object.prototype` exactly when the key names one, else undefined |
| Memory.Own | src/lib/ai/memory.svelte.ts:19 | a value exactly when the key is an own property, and it is that key's entry |
| Memory.Set | src/lib/ai/memory.svelte.ts:11-16 | afterwards the key reads back the value, except that a new `__proto__` key is ignored and changes nothing; any other new key goes last; an existing key keeps the size |
| Memory.SetKeepsKeys | src/lib/ai/memory.svelte.ts:11-12 | every existing key keeps its place, so the creation order of the keys never changes |
| Memory.SetKeepsOthers | src/lib/ai/memory.svelte.ts:11-12 | other keys read back as before |
| Memory.SetKeepsDistinct | src/lib/ai/memory.svelte.ts:11-12 | keys stay distinct |
| Memory.ListingOrder | src/lib/ai/memory.svelte.ts:22-23 | `Object.entries` order: a permutation of the entries with every array-index key before every other key, the index keys in ascending numeric order, the other keys in creation order |
| Memory.Render | src/lib/ai/memory.svelte.ts:24 | each entry prints as "key: value" |
| Memory.GetAll | src/lib/ai/memory.svelte.ts:22-26 | an empty memory prints as ""; one entry prints as "key: value" without a separator |
| Memory.ListingOfNamed | src/lib/ai/memory.svelte.ts:22-23 | without array-index keys, entries are listed in creation order |
| Memory.ListingSnocNamed | src/lib/ai/memory.svelte.ts:22-23 | an entry whose key is not an array index is listed after every entry already there |
| Memory.GetAllAfterNewKey | src/lib/ai/memory.svelte.ts:11-26 | in a non-empty memory, setting a new key that is neither an array index nor `__proto__` appends " \| key: value" to the listing |
| Memory.IndexKeyGoesFirst | src/lib/ai/memory.svelte.ts:11-26 | a new array-index key is listed before every key of a memory that has none |
| Memory.IndexKeyListedFirstExample | src/lib/ai/memory.svelte.ts:11-26 | setting "name" and then "7" lists as "7: y \| name: x" |
| Memory.ResetKeepsShape | src/lib/ai/memory.svelte.ts:11-12 | re-setting a key that is there keeps the size, and the last value wins |
| Tools.ToolList | src/lib/ai/tools.ts:10-12 | there are never more tools than modules |
| Tools.ToolListMembers | src/lib/ai/tools.ts:10-12 | the tools are exactly the configs of modules that have both a config and a handler |
| Tools.LastHandlerIsLast | src/lib/ai/tools.ts:21-25 | a name is bound to the handler of the last usable module with that name, and unbound when there is none |
| Tools.GetHandlers | src/lib/ai/tools.ts:18-28 | the table's names are exactly the tool names, each bound to the last module registering it |
| Tools.EveryToolHasHandler | src/lib/ai/tools.ts:10-28 | every tool offered to the model has a handler |
| Tools.IncompleteModuleIgnored | src/lib/ai/tools.ts:11-22 | a module without config or handler changes neither the tools nor the handlers |
| QuoteGenerator.FindFont | src/lib/utils/quoteGenerator.js:71 | gives the first font with the requested id, or None exactly when there is no id or no font has it |
| QuoteGenerator.QuoteFont | src/lib/utils/quoteGenerator.js:71 | the selected font, or the first font when the id is unknown |
| QuoteGenerator.AuthorFont | src/lib/utils/quoteGenerator.js:72 | the author selection's font, else the quote selection's, else the quote font |
| QuoteGenerator.UnknownFontIsInter | src/lib/utils/quoteGenerator.js:71-72 | an unknown id gives Inter for quote and author |
| QuoteGenerator.GreedyWraps | src/lib/utils/quoteGenerator.js:177-185 | the greedy loop's lines are consecutive runs of words; a line breaks only when the next word would overflow, and a joined word keeps the line within the width |
| QuoteGenerator.WrapWords | src/lib/utils/quoteGenerator.js:174-187 | the loop computes the greedy lines, and they satisfy the wrapping property |
| QuoteGenerator.LinesConcat | src/lib/utils/quoteGenerator.js:177-186 | the first k lines, put back together, are the words up to the k-th break, each followed by one space |
| QuoteGenerator.WrappedConcat | src/lib/utils/quoteGenerator.js:177-186 | the lines put back together are the words in order, each followed by one space |
| QuoteGenerator.FirstLineEmpty | src/lib/utils/quoteGenerator.js:177-186 | the first line is empty exactly when the first word alone overflows |
| QuoteGenerator.GetLines | src/lib/utils/quoteGenerator.js:168-188 | at least one line; together they spell the quoted text plus a space; only the first line can be empty |
| QuoteGenerator.DrawX | src/lib/utils/quoteGenerator.js:193-195 | 140 for left, 940 for right, 540 otherwise, plus the offset |
| QuoteGenerator.AuthorX | src/lib/utils/quoteGenerator.js:213-218 | an explicit author alignment picks its anchor; otherwise the quote's anchor is used |
| QuoteGenerator.SameAlignSameX | src/lib/utils/quoteGenerator.js:213-218 | an author alignment equal to the quote's gives the same anchor |
| QuoteGenerator.StartY | src/lib/utils/quoteGenerator.js:197 | the block of lines is centred on the canvas, shifted by the offset |
| QuoteGenerator.AuthorY | src/lib/utils/quoteGenerator.js:212 | 80 pixels below the block, but never below 940 |
| QuoteGenerator.TextFill | src/lib/utils/quoteGenerator.js:159-164 | black for impact; a custom colour other than white; else white |
| QuoteGenerator.TextFillChoices | src/lib/utils/quoteGenerator.js:159-164 | a custom colour never overrides impact, and white counts as no custom colour |
| QuoteGenerator.AuthorFill | src/lib/utils/quoteGenerator.js:220-231 | hologram and impact colours first; a custom colour is dimmed to 0.6; else the accent |
| ScrapeQuotes.BrLength | scripts/scrape-quotes.js:55 | a match starts with '<' and ends with '>' |
| ScrapeQuotes.ReplaceBreaks | scripts/scrape-quotes.js:55 | never longer; text without '<' is unchanged |
| ScrapeQuotes.StripTags | scripts/scrape-quotes.js:56 | never longer; a '<' survives only at the end or before '>'; text without '<' is unchanged |
| ScrapeQuotes.ReplaceNbsp | scripts/scrape-quotes.js:57 | never longer; text without '&' is unchanged |
| ScrapeQuotes.CollapseSpaces | scripts/scrape-quotes.js:58 | the result is single-spaced; text without whitespace is unchanged |
| ScrapeQuotes.TrimKeepsSpacing | scripts/scrape-quotes.js:58-59 | trimming keeps a text single-spaced |
| ScrapeQuotes.TrimKeepsAbsent | scripts/scrape-quotes.js:63 | trimming never introduces a character |
| ScrapeQuotes.CleanText | scripts/scrape-quotes.js:54-59 | the cleaned quote has no whitespace at either end and no runs of whitespace |
| ScrapeQuotes.CleanAuthor | scripts/scrape-quotes.js:61-64 | "Rumi" without an author; otherwise no commas and no surrounding whitespace |
| ScrapeQuotes.FromContainer | scripts/scrape-quotes.js:53-71 | a container yields a quote exactly when it has text whose cleaned form is longer than 10 UTF-16 code units; the quote is the cleaned text and the cleaned author |
| Strings.Utf16Length | scripts/scrape-quotes.js:66 | the JavaScript `length`: one unit per character, two for a character above U+FFFF; equal to the character count exactly when there is none |
| Strings.Utf16LengthAppend | scripts/scrape-quotes.js:66 | the length of two texts put together is the sum of their lengths |
| ScrapeQuotes.QuotesOf | scripts/scrape-quotes.js:42-73 | every kept quote is clean and long enough |
| ScrapeQuotes.FetchPage | scripts/scrape-quotes.js:10-83 | a network error or a non-200 status gives no quotes |
| ScrapeQuotes.AllQuotes | scripts/scrape-quotes.js:87-92 | every collected quote is clean and long enough |
| ScrapeQuotes.UniqueTexts | scripts/scrape-quotes.js:95-100 | de-duplication keeps every text exactly once |
| ScrapeQuotes.UniqueKeepsFirst | scripts/scrape-quotes.js:95-100 | each kept quote is the first one with its text, in input order |
| ScrapeQuotes.Dedupe | scripts/scrape-quotes.js:95-100 | the seen-set loop computes the de-duplicated list |
| ScrapeQuotes.Run | scripts/scrape-quotes.js:85-112 | the output is the de-duplicated quotes of all pages, written only when not empty |
| Seqs.SortDesc | src/lib/features/news/newsState.svelte.ts:200-204 | the sort is a permutation ordered newest first |
| Seqs.Filter | src/lib/features/news/newsState.svelte.ts:47 | keeps, in order, exactly the elements that pass the test |
| Seqs.FilterCount | src/lib/features/news/newsState.svelte.ts:47 | every copy of a passing value is kept and no copy of a failing one |
| Seqs.FilterPartition | src/lib/features/news/newsState.svelte.ts:47 | the elements kept by a test and those kept by its negation together are the whole sequence |
| Seqs.FindIndex | src/lib/features/preview/previewState.svelte.ts:22 | the first index whose element passes the test, or None exactly when none passes |
| Strings.Split | src/lib/state/i18n.svelte.ts:32 | at least one piece, no piece holds the separator, and joining the pieces with it gives the text back |
| Strings.IndexOf | src/lib/ai/handlers/skills/market_skills.ts:37 | the first position where the pattern occurs, or None exactly when it occurs nowhere |
| Strings.ReplaceFirst | src/lib/state/i18n.svelte.ts:42 | text without the pattern is unchanged; otherwise the first occurrence is replaced by the expanded replacement and the text around it is kept |
| Strings.ReplaceFirstAt | src/lib/state/i18n.svelte.ts:42 | when the pattern first occurs at i, the result is the text before i, the replacement with `$$`, `$&`, `` $` `` and `$'` expanded, and the text after the match |
| Strings.ReplaceFirstAbsent | src/lib/state/i18n.svelte.ts:42 | a pattern that occurs nowhere leaves the text unchanged |
| Strings.Expand | src/lib/state/i18n.svelte.ts:42 | a replacement without `$` is used as is; `$$` gives "$", `$&` the match, `` $` `` the text before it and `$'` the text after it |
| Strings.ExpandPrefix | src/lib/state/i18n.svelte.ts:42 | a leading piece without `$` is copied and the rest expanded after it |
| Strings.ExpandToken | src/lib/state/i18n.svelte.ts:42 | a leading `$` token expands on its own, and the rest after it |
| Strings.SplitJoin | src/lib/state/i18n.svelte.ts:32 | splitting undoes joining when no piece holds the separator |
| Strings.ReplaceFirstOnlyFirst | src/lib/state/i18n.svelte.ts:42 | a string pattern replaces only its first occurrence |
| Strings.ToLower | src/lib/features/preview/previewState.svelte.ts:22 | same length; every character lower-cased one by one, leaving no ASCII capital |
| Strings.ToUpper | src/lib/ai/handlers/skills/market_skills.ts:37 | same length; every character upper-cased one by one, leaving no ASCII small letter |
| Strings.ToLowerIdempotent | src/lib/features/preview/previewState.svelte.ts:22 | lower-casing twice equals lower-casing once |
| Strings.Trim | scripts/scrape-quotes.js:59 | a slice of the text with only whitespace cut off before and after it, and no whitespace left at either end |

## Left out

- Network and storage I/O is not modelled. This covers `fetch`, the proxy,
  the Binance WebSocket, localStorage, sessionStorage, cookies and IndexedDB.
  Results arrive as parameters, and storage writes are not tracked.
- `refreshAll`, `fetchFeed`, `fetchFeedData` and `fixEncoding` (newsState lines
  159-334) are left out. They are network fetching, XML parsing and
  character-encoding repair. Only `MergeArticles`, which takes what they
  produce, is modelled.
- The legacy methods `nextFeed` and `prevFeed` have empty bodies, so they
  are left out.
- Numbers are exact: the model uses exact reals (prices, rates, scale) and
  unbounded integers. Rounding and `toLocaleString`/`toFixed` formatting are
  not modelled; formatting is supplied as functions.
- Timers are not modelled. These are the glitch, aura and shake flags, the
  combo timeout, and the reload delay. `AppState.ShufflePersona` also sets
  the persona at once, where the source sets it after 50 ms.
- Case mapping covers ASCII letters only (`toLowerCase`/`toUpperCase`).
- MarketState.Initial does not model the `init` call it triggers in a
  browser. `init` is modelled as `ApplySnapshot`, `ApplyForex` and the
  stream updates.
- The regular-expression extraction in the scraper is not modelled: the
  quote container, the text between the curly quotes and the author span
  are inputs (`Container`). The page count of 10 is the length of `pages`,
  and the one-second pause is left out.
- `QuoteGenerator`: the canvas drawing, background scaling, filters and the
  style overlays are left out. The canvas text measure is a parameter.
- The `mark_all_read`, `filter_unread` and `filter_all` rss actions call
  `newsState.markAllAsRead` and `setFilterMode`. The news state does not
  define them, so the model returns the caught error reply. It does not
  model the exact runtime message.
- ScrapeQuotes.FetchPage states the failure cases and delegates the
  successful page to `QuotesOf`. Which containers a page holds is an input.
- MarketState.ForexValTo: when the `from` rate is missing or zero, or the
  `to` rate is missing, the source stores NaN or Infinity in `valTo`. Reals
  have neither value, so the model keeps the old value. A zero `to` rate
  gives zero, as in the source.
- Seqs.SortDesc states that the result is a permutation and ordered, but
  not that the sort is stable.
- I18n.Step: a text, a number or an inherited function also has the members
  of its own prototype (`charAt`, `toFixed`, a function's `name` and
  `length`); the model reads those as undefined, so such a key gives back the
  key. Index and `length` count characters, not UTF-16 code units.
- I18n.Substitute takes the variables in `Object.entries` order; putting
  array-index names first is left to the caller.
- Memory.Set models a plain object. The reactive proxy that Svelte puts
  around `data` is not modelled.
- `Memory` stores values as the text they print as. JSON round-tripping of
  other value types is not modelled.
- MarketState.ApplySnapshotItem: models `parseFloat` only by its result,
  the number or NaN. NaN is written as `None` and stored as 0.
- MarketState.ApplyStreamMessage: the parsed numbers are inputs. Where the
  source would store NaN, the model takes the given number.
