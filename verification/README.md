# FinSight core, modelled in Dafny

FinSight is a Telegram bot. A user sends it the name or NSE symbol of a Nifty 50 company. The bot then:

1. resolves the text to a company through a search-term index built from a company table;
2. scrapes the company's Screener.in page into a dictionary of metrics;
3. formats that dictionary as a message;
4. asks Gemini for a narrative, retrying and backing off on rate limits.

This project models the deterministic core of those steps and proves what the code promises about them.

| module | file | models |
|---|---|---|
| `Wrappers` | wrappers.dfy | `Option` |
| `Text` | text.dfy | the Python `str` operations the code uses: `lower`, `strip`, `lstrip`, `rstrip`, `rstrip(c)`, `split()[0]` (the first word), `split(sep)`, `join`, `replace`, `endswith`, `in` |
| `OrderedMaps` | ordered_maps.dfy | Python's `dict` as a sequence of entries. Assigning to a new key appends it; assigning to an existing key replaces the value in place. |
| `StockIndex` | stock_index.dfy | `_load_stock_mapping` (the method `LoadStockMapping`, loops as in the code, proved equal to the function `BuildIndex`) and `search_stock` (`SearchStock`) |
| `MetricExtraction` | metric_extraction.dfy | `extract_from_table`; the synonym/strategy chain; price cleaning; the High/Low fallback; `scrape_company_data` (method `ScrapeCompanyData`, proved equal to the function `ScrapedData`); `get_stock_data` (method `GetStockData`) |
| `Insights` | insights.dfy | `format_data_for_prompt`, the error classification, and `generate_insights` (method `GenerateInsights`, proved equal to the function `Generate`) |
| `Bot` | bot.dfy | `format_metrics` (method `FormatMetrics`, proved equal to the function `Formatted`) |

The world outside the code is passed in as parameters:

- A company page is the datatype `Page`. It holds the `<h1>` text, the price element's text and the cell texts of every table row. It also holds two given functions that stand for the DOM searches `extract_from_key_metrics` and `extract_value`.
- The HTTP fetch is a given function from URL to `Option<Page>`. `None` means the request or the parsing raised.
- The Gemini call is a given function from the prompt and the attempt number to `Answer(text)` or `Failure(message)`.
- `time.sleep` is recorded as the returned list of delays slept.
- The number parsed from "retry in Xs" is a given function of the error message.
- The company table arrives as the rows that passed the `notna()` filter on the name and symbol columns. Such a cell can still be white space only, and is then "" after `strip()`; a `Row` takes any strings.

Behaviour of the code worth noting:

- `get_stock_data` reports "Could not scrape data" only when the scraped dictionary is empty. A page that yields only a heading, or only a price, is not an error.
- The company name is replaced by the record's name only when the page gave none, or gave an empty one.
- The slug falls back to the symbol whenever the link has no `company/` in it, not only when there is no link.
- The scraper stores the debt figure under "Debt". The bot shows the label "Debt/Equity". So the debt figure never appears in the message, and the "Debt/Equity" line never has a value (`Bot.DebtNeverShown`, `Bot.DebtEquityNeverShown`).

## Model

| member | source | states |
|---|---|---|
| StockIndex.DeriveSlug | scraper.py:57-64 | the slug of a row; its contract is stated by `DeriveSlugFromLink` |
| StockIndex.DeriveSlugFromLink | scraper.py:57-64 | a link containing "company/" yields the text after its last "company/": that occurrence is followed by the slug and then only '/' characters, with no "company/" in between, and the slug has no trailing '/'; otherwise the symbol, or nothing when the symbol is empty |
| StockIndex.BuildIndex | scraper.py:51-89 | the index the rows give; its contract is stated by `IndexOfRows`, `RowKeysFollowSearchTerms` and `Text.FirstWordSpec` |
| StockIndex.LoadStockMapping | scraper.py:51-89 | the loop over the rows builds exactly `BuildIndex(rows)`, and no key occurs twice |
| StockIndex.StoreTerms | scraper.py:81-89 | the inner loop assigns the keys of every search term, in order |
| StockIndex.StoreTerm | scraper.py:82-89 | a non-empty term is assigned; its " ltd"/" ltd." stripped form is assigned when it ends with one of those; its " limited" stripped form is assigned when it ends with that; an empty term assigns nothing |
| StockIndex.RowKeysFollowSearchTerms | scraper.py:67-89 | a row stores the keys of its lower-cased name, then of its lower-cased symbol, then of the lower-cased first word of its name (`split()[0]`, as `Text.FirstWordSpec` states), the last only when the name is not empty |
| Text.FirstWordSpec | scraper.py:71 | `split()[0]`: the first word starts the text after its leading white space, holds no white space, and is followed by white space or the end; it is empty only for an all-white-space text |
| Text.FirstWordOfName | scraper.py:71 | the first word of "Tata Steel" is "Tata" |
| StockIndex.LastWriterWins | scraper.py:84-89 | each key maps to the record of the last row that writes it |
| StockIndex.UnwrittenKeyAbsent | scraper.py:81-89 | a key that no row writes is not in the index |
| StockIndex.KeysInFirstWriteOrder | scraper.py:84-89 | the index iterates in the order keys were first written (rewriting keeps the position), and keys are distinct |
| StockIndex.IndexOfRows | scraper.py:51-89 | for the index built from the table: a key maps to the last row storing it; an unstored key is absent; iteration follows first-write order |
| StockIndex.FirstMatch | scraper.py:115-122 | the position of the first entry, in iteration order, that passes one of the five containment checks; None exactly when no entry passes |
| StockIndex.SearchStock | scraper.py:108-122 | an exact hit on the lower-cased, stripped query returns the record stored under that key; otherwise it returns the record of the first entry passing a check; None exactly when none passes |
| StockIndex.QueryOfStoredTermFindsLastRow | scraper.py:108-112 | a query that normalises to a term some row stores resolves to the last such row, with no scan |
| StockIndex.BlankQueryPicksFirstEntry | scraper.py:115-120 | a blank query with no blank key matches every entry by containment, so it returns the first entry |
| Text.TrimStartSpec | scraper.py:52-54 | `lstrip()` removes exactly the leading white space |
| Text.TrimEndSpec | scraper.py:52-54 | `rstrip()` removes exactly the trailing white space |
| Text.TrimEndCharSpec | scraper.py:59 | `rstrip('/')` removes exactly the trailing run of '/' |
| Text.LastPieceFollowsLastSeparator | scraper.py:59 | `split(sep)[-1]` is a suffix of the text with no sep in it. When sep occurs, an occurrence of sep comes right before that suffix; when it does not, the result is the whole text. |
| Text.ReplaceSuffixOnly | scraper.py:86-89 | when the pattern occurs only as the suffix, `replace(pattern, '')` cuts exactly that suffix off |
| Text.SplitJoinRoundTrip | ai_insights.py:32 | splitting a newline-joined list of lines that contain no newline gives the lines back |
| OrderedMaps.PutGet | scraper.py:84 | after `d[k] = v`, k holds v and every other key is unchanged |
| OrderedMaps.PutKeys | scraper.py:84 | after `d[k] = v` the key order is unchanged, with k appended when it is new; distinct keys stay distinct |
| OrderedMaps.PutAllGet | scraper.py:84-89 | after a run of assignments of v, the assigned keys hold v and the others are unchanged |
| OrderedMaps.PutAllKeys | scraper.py:84-89 | a run of assignments appends the new keys in order of first assignment |
| MetricExtraction.ExtractFromTable | scraper.py:166-177 | the table search; its contract is stated by `ExtractFromTableFirstRow` and `ExtractFromTableIgnoresLaterRows` |
| MetricExtraction.ExtractFromTableFirstRow | scraper.py:166-177 | the first row with at least two cells whose lower-cased first cell contains the lower-cased term decides: its second cell, or None when that cell is empty; None when no row qualifies |
| MetricExtraction.ExtractFromTableIgnoresLaterRows | scraper.py:169-174 | rows after a qualifying row never change the result |
| MetricExtraction.OrChainFirstTruthy | scraper.py:281-283 | `a or b or c` yields the result of the first strategy that is truthy, and is falsy exactly when every strategy is |
| MetricExtraction.FirstAcrossFirstTruthy | scraper.py:279-285 | the synonym loop yields the chain result of the first synonym whose result is truthy; None exactly when no synonym's result is truthy; never an empty text |
| MetricExtraction.ResolveTerms | scraper.py:278-285 | the value left by the synonym loop is truthy exactly when some synonym resolves, and is then that first result |
| MetricExtraction.CleanPrice | scraper.py:260 | the cleaned price holds only digits, '.' and ',' |
| MetricExtraction.CleanPriceConcat | scraper.py:260 | cleaning distributes over concatenation, so every kept character stays in order |
| MetricExtraction.CleanPriceOfCleanText | scraper.py:260 | cleaning leaves an already clean text unchanged |
| MetricExtraction.CleanPriceOfOneChar | scraper.py:260 | a single character is kept exactly when it is a digit, '.' or ','; with `CleanPriceConcat`, every other character is removed |
| MetricExtraction.PriceValue | scraper.py:257-262 | the stored price; its contract is stated by `PriceFormat` |
| MetricExtraction.PriceFormat | scraper.py:257-262 | a price is stored exactly when cleaning leaves something. Then it is '₹' followed by the non-empty cleaned text, made only of digits, '.' and ','. |
| MetricExtraction.StoreFoundMetrics | scraper.py:277-288 | the metric loop stores each metric of the table, in table order, when a synonym resolves |
| MetricExtraction.ScrapeCompanyData | scraper.py:222-309 | the method computes exactly `ScrapedData` of the fetched page, an empty dictionary when the fetch failed, with distinct keys |
| MetricExtraction.ScrapedDataValid | scraper.py:239-303 | each name is assigned at most once, so the scraped dictionary has no duplicate key |
| MetricExtraction.StoreMetricsGet | scraper.py:277-288 | after the metric loop, a metric name holds its first truthy synonym result, or what it held before when none resolves |
| MetricExtraction.StoreMetricsUntouched | scraper.py:277-288 | the metric loop does not touch a name that no table entry carries |
| MetricExtraction.StoreMetricsValid | scraper.py:277-288 | the metric loop keeps keys distinct |
| MetricExtraction.MetricNamesDistinct | scraper.py:265-275 | helper, a fact about the constants: the nine metric names are pairwise distinct and differ from "Company Name" and "Current Price" |
| MetricExtraction.MeasuredMetric | scraper.py:277-288 | after the metric loop, each metric name holds the first truthy synonym result (strategy order: key metrics, then labelled span, then table) |
| MetricExtraction.PricedContents | scraper.py:241-262 | after the name and price steps, only "Company Name" (the `<h1>` text) and "Current Price" (the formatted price) can be present |
| MetricExtraction.HighLowFallback | scraper.py:290-303 | the High/Low fallback; its contract is stated by `ScrapedGet` and `ScrapedHighLow` |
| MetricExtraction.ScrapedGet | scraper.py:290-303 | the fallback can change only "High / Low". It writes there when the metric loop left no truthy value and both sides resolve. |
| MetricExtraction.ScrapedNameAndPrice | scraper.py:242-262 | the scraped dictionary holds the `<h1>` text under "Company Name" and the formatted price under "Current Price" |
| MetricExtraction.ScrapedMetric | scraper.py:277-288 | every metric other than "High / Low" holds its first truthy synonym result and is absent when none resolves |
| MetricExtraction.ScrapedHighLow | scraper.py:290-303 | "High / Low" holds its own synonym result. Otherwise it holds `high + " / " + low` when both sides resolve (table before span, in synonym order), and is absent otherwise. |
| MetricExtraction.ScrapedOnlyKnownNames | scraper.py:239-305 | no name outside the eleven the scraper knows is ever stored |
| MetricExtraction.Enrich | scraper.py:330-334 | the enrichment; its contract is stated by `EnrichGet` and `EnrichValid` |
| MetricExtraction.EnrichGet | scraper.py:330-334 | enrichment sets "slug" and "NSE Symbol" from the record. It keeps a truthy scraped company name and otherwise uses the record's. Every other key is unchanged. |
| MetricExtraction.EnrichValid | scraper.py:330-334 | enrichment keeps keys distinct |
| MetricExtraction.GetStockData | scraper.py:311-336 | an unresolved query gives exactly the single "error" entry with the not-found text. A failed or empty scrape gives exactly the single "error" entry with the scrape-failed text. Otherwise the result is the enriched scrape, with distinct keys and no "error". |
| MetricExtraction.ScrapedNeverHoldsError | scraper.py:321-336 | a scraped dictionary never holds "error", so "error" marks exactly the two failure cases |
| Insights.FormatDataForPrompt | ai_insights.py:28-32 | the data block; its contract is stated by `PromptLinesAround`, `PromptLinesConcat`, `PromptLinesCount` and `PromptLinesRecoverable` |
| Insights.PromptLinesCount | ai_insights.py:28-32 | at most one line per entry; no line at all exactly when every entry is "error", "slug" or empty |
| Insights.PromptLinesConcat | ai_insights.py:29-31 | the lines follow dictionary order |
| Insights.PromptLinesAround | ai_insights.py:29-31 | an entry contributes exactly its "key: value" line at its own place when shown, and nothing otherwise |
| Insights.PromptLinesRecoverable | ai_insights.py:28-32 | when no key or value contains a newline, splitting the data block at newlines gives the lines back |
| Insights.NoNewlineInLines | ai_insights.py:31 | no line contains a newline when no key or value does |
| Insights.Classify | ai_insights.py:91-133 | the branch an error takes, in the code's order; its contract is stated by `RateLimitTakesPrecedence`, `QuotaEndsRun`, `OtherErrorsStop` and `RunFromRetries` |
| Insights.NextDelay | ai_insights.py:106-116 | the delay slept; its contract is stated by `RunFromDelays` and `UnhintedDelaysDouble` |
| Insights.RunFrom | ai_insights.py:65-135 | the remaining attempts; its contract is stated by `RunFromCalls`, `RunFromSleepsAfterRateLimit`, `RunFromRetriesWhileAttemptsLeft`, `RunFromDelays` and `RunFromFinal` |
| Insights.Generate | ai_insights.py:45-135 | `generate_insights` as a function; its contract is stated by `GenerateSpec` |
| Insights.GenerateInsights | ai_insights.py:34-135 | the method computes exactly `Generate`. With "error" in the data it makes no call, sleeps nothing and returns None. |
| Insights.RunFromStops | ai_insights.py:84-133 | helper, one step of `RunFrom`: an answer, an exhausted quota, a rate limit on the last attempt, or any other error ends the run with that reply's result and no further sleep |
| Insights.RunFromRetries | ai_insights.py:106-120 | helper, one step of `RunFrom`: a rate limit before the last attempt sleeps the next delay once, then continues with twice that delay |
| Insights.RunFromPastEnd | ai_insights.py:68-135 | helper, one step of `RunFrom`: with no attempts left, the result is None |
| Insights.RunFromCalls | ai_insights.py:65-68 | at least one and at most three calls, with one sleep between consecutive calls |
| Insights.RunFromSleepsAfterRateLimit | ai_insights.py:91-120 | only a rate-limited failure without a free-tier marker is followed by a sleep |
| Insights.RunFromDelays | ai_insights.py:106-119 | the first delay is derived from the current delay and every later one from twice the previous; a suggested delay replaces either |
| Insights.RunFromFinal | ai_insights.py:84-133 | the last reply decides the result: the stripped answer, the quota notice, or None |
| Insights.RunFromRetriesWhileAttemptsLeft | ai_insights.py:91-120 | a run that stops before the third call does not stop on a retryable rate limit: such a failure with attempts left is always retried |
| Insights.GenerateSpec | ai_insights.py:45-135 | for `generate_insights`: no call when "error" is present; otherwise 1 to 3 calls, a sleep after every call but the last and only after a rate limit, a retryable rate limit before the third call always retried, delays from 2 doubling unless a delay is suggested, and the result from the last reply |
| Insights.AnswerAfterRateLimits | ai_insights.py:65-120 | k retryable rate limits (k < 3) followed by an answer give the stripped answer, after k + 1 calls and k sleeps |
| Insights.QuotaEndsRun | ai_insights.py:91-104 | an exhausted free tier returns the notice at once, with no sleep, on any attempt |
| Insights.RateLimitTakesPrecedence | ai_insights.py:91-93 | a message with a rate-limit marker is never classed as an auth, safety or other error. It is classed as quota exhaustion exactly when it also carries a free-tier marker. |
| Insights.OtherErrorsStop | ai_insights.py:124-133 | a failure without a rate-limit marker returns None at once, with no retry and no sleep |
| Insights.RateLimitOnLastAttempt | ai_insights.py:106-123 | a rate limit on the last attempt returns None without sleeping |
| Insights.UnhintedDelaysDouble | ai_insights.py:66-119 | with no suggested delays, the sleeps are 2 and then 4 |
| Bot.Formatted | bot.py:26-62 | the message as a function; its contract is stated by `FormatMetrics`, `LimitedNoticeExactly`, `BulletsConcat`, `BulletsEmpty` and `FormattedIgnoresUnlistedKeys` |
| Bot.FormatMetrics | bot.py:26-62 | the method computes exactly `Formatted`. With "error" present, the message is "❌ " followed by the error text. |
| Bot.BulletsConcat | bot.py:52-55 | metric lines follow label order |
| Bot.BulletsOfOne | bot.py:53-55 | a label contributes its line exactly when its value is truthy |
| Bot.BulletsEmpty | bot.py:51-57 | there are no metric lines exactly when no listed label has a truthy value |
| Bot.BulletsOnlyListed | bot.py:46-55 | the metric lines depend only on the values under the listed labels |
| Bot.FormattedIgnoresUnlistedKeys | bot.py:36-62 | keys other than "error", "Company Name" and the listed labels (such as "Debt", "slug" or "NSE Symbol") never change the message |
| Bot.LimitedNoticeExactly | bot.py:39-60 | the header and company line come first. Then comes the single "Limited data" line exactly when no listed label has a value; otherwise the metric lines. |
| Bot.BulletShape | bot.py:55 | every metric line starts with the bullet sign |
| Bot.DebtEquityNeverShown | bot.py:46-49 | a dictionary that `get_stock_data` builds from a scraped page never holds "Debt/Equity" |
| Bot.DebtNeverShown | bot.py:46-49 | the first clause is a fact about the constants; the second: the scraped "Debt" figure sits under a name that is not a label |

## Left out

- HTTP (`requests`, headers, timeout, `raise_for_status`) is a given fetch function. Any exception while fetching or parsing becomes a failed fetch, which `scrape_company_data` turns into `{}`.
- The BeautifulSoup searches `extract_value` and `extract_from_key_metrics`, the `<h1>` lookup and the three-way price-element lookup are abstracted. They appear as `Page` fields: given functions, or the text they produce. Their own exception handlers returning None are part of those functions.
- Excel reading, the file-existence check, the NaN filter, the load-time `except` that returns `{}` and the "Loaded N stocks" print are left out. The model takes the filtered rows as input.
- `ScreenerScraper` and `AIInsightsGenerator` keep the index and the Gemini client in object fields. The model passes the index and the model function as parameters, because nothing updates those fields after construction.
- Gemini configuration, temperature and token limit are left out. A response whose `.text` raises is a `Failure` with that message.
- The regular expression and `int(float(...))` that read the suggested delay are a given function of the message. It is consulted only when the lower-cased message contains "retry in", as in the code.
- `time.sleep` is recorded, not performed. The printed diagnostics are left out. The auth, safety and other-error branches differ only in what they print, so the model returns None for all three.
- Telegram handlers, polling, webhooks, the welcome texts and the AI call made from the bot are transport and are not modelled.
- Text.Lower: lower-cases only ASCII letters, because Python's full Unicode case mapping is not modelled.
- MetricExtraction.CleanPrice: treats only ASCII digits as `\d`, because Python's `re` also accepts other Unicode decimal digits.
- Dictionary values are strings. The code never stores None; an empty string counts as falsy, as in Python.
