# Stock data sources and A-share name directories, in Dafny

This project models the data-acquisition core of the `stocker` package of
quant_trading. It covers three parts.

- **The multi-source price fetcher** (`Data_Analysis/stocker/data_sources.py`).
  - `MultiSourceDataFetcher` lists its providers: akshare, then tushare, each only if its library imported.
  - It tries every provider up to three times, sleeping 5 s and then 10 s between attempts.
  - It returns the first non-empty, standardised result tagged with the provider's name. Otherwise it returns the mock series tagged `"mock_data"`.
  - Modules: `Fetcher`, `Tickers`, `Normalizer`.
  - The ticker converters, the period-to-window mapping, the akshare column map and projection, and `_standardize_data` are all modelled. `_standardize_data` covers the case-insensitive rename, the required-column check, volume synthesis, the derived Prophet columns and the sort by date.
- **The complete name directory** (`Data_Analysis/stocker/all_stock_names.py`, module `CompleteNames`).
  - It normalises tickers, zero-padding digit codes to six places.
  - It guesses a board from the code prefix.
  - Lookups try the stored name, then a live lookup, then a `"股票-<code>"` placeholder.
  - The cache expires after seven days.
  - The bulk fetch runs three listing calls with a row filter, then a merge.
  - `refresh_cache` clears the directory, then fetches. Search is by substring, and the directory can be counted.
- **The static-table manager and the module-level facade** (`Data_Analysis/stocker/stock_names.py`, modules `StaticNames` and `NameFacade`).
  - `StockNameManager` works over copies of `A_STOCK_NAMES` and `INDUSTRY_MAPPING`. It has no zero-padding, and it caches names but not industries.
  - The facade's `get_stock_name`, `get_stock_industry` and `get_stock_info` prefer the complete directory. They fall back when it answers with a placeholder or `"其他"`.

Supporting modules:

- `Results`: `Option`/`Result`.
- `Text`: Python `str` operations — `strip` with Python's whitespace set, `upper`, `split('.')[0]`, `zfill`, `isdigit`, `in`.
- `Dicts`: Python's insertion-ordered `dict`.
- `Frames`: a data frame as a column list plus positional rows.

Modelling choices:

- **Providers** are scripts: one outcome per attempt, judged into the bars the attempt yields or a failure. The retry loop returns the result, its tag, a call log and a delay log; `time.sleep` becomes an entry in that log.
- **Network answers and the clock** are parameters:
  - the single-stock name endpoint is `live: string -> Option<string>`;
  - the listing calls are a `Listings` record;
  - history replies are a sequence;
  - `datetime.now()` is `now`/`today`.
- **Randomness:** numpy's draws are integer functions.
- **Time units:** instants are integer microseconds and dates are day numbers. Prices are integers.

Behaviour worth noting:

- `refresh_cache` clears names, industries and date before fetching. Afterwards the directory holds exactly what the fetch returned, or nothing.
- A placeholder name is returned but never cached, by either manager.
- The placeholder prefix is `"股票-"`, and the fallback tag is `"mock_data"`.
- In the bulk fetch a later listing method overwrites an earlier one for the same code.
- Every exception is retried alike. A standardisation failure counts as a failed attempt of the same provider.
- `_save_cache` writes the current time to the file but leaves the in-memory date as it was.
- The bulk-fetch row filter accepts an empty code cell as `"000000"`, because `zfill` pads it to six zeros.

## Model

| member | source | states |
|---|---|---|
| Fetcher.Sources | Data_Analysis/stocker/data_sources.py:43-51 | akshare is listed iff installed, tushare iff installed, and akshare always comes before tushare |
| Fetcher.FailedSourceDelays | Data_Analysis/stocker/data_sources.py:87-90 | a provider failing all three attempts sleeps exactly 5 then 10 seconds, and not after its last attempt |
| Fetcher.AttemptBars | Data_Analysis/stocker/data_sources.py:76-85 | an attempt yields bars iff the call returned a non-empty frame that standardises; a raised call, an empty frame and a failed standardisation all count as one failed attempt |
| Fetcher.ProviderFor | Data_Analysis/stocker/data_sources.py:76 | the adapter behind `fetch_func(ticker, period)`: akshare attempt j is the akshare adapter run on network reply j; tushare raises on every attempt |
| Fetcher.RetrySource | Data_Analysis/stocker/data_sources.py:72-90 | the first successful attempt wins; every earlier attempt is logged as a call followed by its backoff; with no success all three calls and the backoffs 5, 10 are logged |
| Fetcher.RunFrom | Data_Analysis/stocker/data_sources.py:69-91 | the winner is the lexicographically first successful (provider, attempt); the call and delay logs hold exactly the attempts up to it; with no success every provider's three calls and both backoffs are logged |
| Fetcher.Fetch | Data_Analysis/stocker/data_sources.py:69-94 | never fails; the result is tagged mock data iff every attempt of every provider fails, and then it is the mock series with every provider called three times; otherwise its bars are some provider attempt's result; every logged call is an attempt below three of a listed provider |
| Fetcher.FirstSuccessWins | Data_Analysis/stocker/data_sources.py:76-80 | given the first successful attempt, the result carries that provider's tag and bars, and the logs show no later provider being called |
| Fetcher.FirstTrialDecides | Data_Analysis/stocker/data_sources.py:66-94 | when only the first provider can succeed, the result is mock data exactly when all its attempts fail, and otherwise its first success supplies the bars, the calls and the backoffs |
| Fetcher.AkshareDecides | Data_Analysis/stocker/data_sources.py:43-94 | with the concrete providers, the mock fallback happens exactly when akshare is missing or fails all three attempts, and an akshare win is its first successful attempt |
| Fetcher.AtMostThreeCallsEach | Data_Analysis/stocker/data_sources.py:72-76 | with distinct providers, no provider appears more than three times in the call log |
| Fetcher.AkshareRequest | Data_Analysis/stocker/data_sources.py:103-126 | a request is made iff the ticker converts; its symbol is exactly the converted ticker, a six-digit code, and its window is the period's |
| Fetcher.AkshareRename | Data_Analysis/stocker/data_sources.py:146-161 | each column label listed in the akshare mapping is replaced by its English name, in place; every other label is kept |
| Fetcher.AkshareTable | Data_Analysis/stocker/data_sources.py:139-183 | an empty frame or a missing price column raises; otherwise the output has exactly the six required columns, one row per input row, with the price cells and any existing Volume taken from the renamed input; a synthesised Volume lies in [100000, 10000000) |
| Fetcher.FillVolume | Data_Analysis/stocker/data_sources.py:175-177 | a frame that has Volume is returned unchanged; otherwise Volume is appended as the last column with in-range values, and every existing column keeps its cells |
| Fetcher.AkshareFetch | Data_Analysis/stocker/data_sources.py:97-186 | an unconvertible ticker or a failed call raises; otherwise the reply is post-processed as above |
| Fetcher.AkshareUnconvertibleIgnoresNetwork | Data_Analysis/stocker/data_sources.py:103-105 | an unconvertible ticker fails the same way whatever the network would answer |
| Fetcher.TushareFetch | Data_Analysis/stocker/data_sources.py:188-207 | the tushare adapter always raises |
| Fetcher.FetchStockData | Data_Analysis/stocker/data_sources.py:55-94 | the result is mock data exactly when akshare is not installed or all three of its judged attempts fail, and then it is the 366-bar mock series with a delay log of [5, 10] per listed provider; otherwise akshare wins with its first successful attempt: those bars (non-empty, date-sorted, derived), one call per attempt up to it, and the backoffs of the failures before it; every call is to a listed provider |
| Fetcher.UnconvertibleTickerGetsMock | Data_Analysis/stocker/data_sources.py:92-94 | a ticker akshare cannot convert always ends in the mock series, after three calls and the 5 s and 10 s sleeps of every listed provider |
| Fetcher.FetchStockDataCallBound | Data_Analysis/stocker/data_sources.py:72-76 | the concrete fetcher calls each provider at most three times |
| Tickers.ToAkshare | Data_Analysis/stocker/data_sources.py:209-241 | after upper-casing and stripping: a six-digit code is kept; otherwise a code before the dot is taken; otherwise the alias table, then the US stand-in 600519; the result is None exactly when none of these applies, and every converted symbol is a six-digit code |
| Tickers.ToAkshareIdempotent | Data_Analysis/stocker/data_sources.py:213-215 | converting a converted symbol gives it back |
| Tickers.ToAkshareDropsSuffix | Data_Analysis/stocker/data_sources.py:218-221 | a six-digit code with any market suffix converts to the bare code |
| Tickers.ToTushare | Data_Analysis/stocker/data_sources.py:243-254 | a symbol exists iff the ticker is six digits with a Shenzhen (000-003) or Shanghai (600/601/603/605) prefix; it is the code plus ".SZ" exactly for Shenzhen and ".SH" exactly for Shanghai |
| Tickers.TushareToAkshare | Data_Analysis/stocker/data_sources.py:218-221 | a tushare symbol converts back to its code through the akshare converter |
| Tickers.HistoryWindow | Data_Analysis/stocker/data_sources.py:109-126 | the window ends today; "max" starts at 2000-01-01; "1y", "2y" and "5y" reach back 365, 730 and 1825 days; any other period reaches back 365 days |
| Tickers.UnknownPeriodIsOneYear | Data_Analysis/stocker/data_sources.py:122-123 | any period other than max/1y/2y/5y asks for the same window as "1y" |
| Normalizer.CanonicalIdempotent | Data_Analysis/stocker/data_sources.py:266-275 | renaming a renamed column changes nothing, and names outside the map pass through |
| Normalizer.RenameIdempotent | Data_Analysis/stocker/data_sources.py:275 | renaming a column list twice equals renaming it once |
| Normalizer.Rename | Data_Analysis/stocker/data_sources.py:266-275 | each column label becomes its lower-cased synonym's canonical name when it has one, and stays unchanged otherwise, position by position |
| Normalizer.MissingColumn | Data_Analysis/stocker/data_sources.py:278-285 | the check passes iff every required column is present, with Volume excused when Close is present; a reported column is required and absent |
| Normalizer.MissingColumnIsPrice | Data_Analysis/stocker/data_sources.py:279-285 | the check passes iff the five price columns are present; Volume is never the reported column |
| Normalizer.RowToBar | Data_Analysis/stocker/data_sources.py:291-298 | a bar takes its prices from the row and has its derived columns (Adj. Close = Close, Adj. Open = Open, ds = Date, y = Adj. Close, Daily Change = Adj. Close - Adj. Open) |
| Normalizer.SortByDate | Data_Analysis/stocker/data_sources.py:301 | the result is sorted by date and is a permutation of the input |
| Normalizer.Standardize | Data_Analysis/stocker/data_sources.py:256-303 | fails iff a price column is missing after the rename, naming the first missing one in the order Date, Open, High, Low, Close; otherwise the bars are a permutation of the converted rows, one per row, sorted by date, each with its derived columns, and synthesised volumes lie in [100000, 10000000) |
| Normalizer.StandardizeCanonical | Data_Analysis/stocker/data_sources.py:266-285 | a table with the canonical columns is accepted and its labels are unchanged |
| Normalizer.MockBars | Data_Analysis/stocker/data_sources.py:325-332 | the mock rows carry 2024 dates and in-range volumes |
| Normalizer.MockSeries | Data_Analysis/stocker/data_sources.py:305-334 | the mock series has 366 bars, sorted by date, each dated in 2024 with an in-range volume and its derived columns |
| CompleteNames.Normalize | Data_Analysis/stocker/all_stock_names.py:175-183 | a normalised ticker has no '.', and a digit result has at least six places |
| CompleteNames.NormalizeDecoratedCode | Data_Analysis/stocker/all_stock_names.py:175-183 | a six-digit code, bare or with any suffix, normalises to itself |
| CompleteNames.NormalizeIdempotent | Data_Analysis/stocker/all_stock_names.py:175-183 | normalising twice equals normalising once whenever the first result does not end in whitespace |
| CompleteNames.NormalizeNotIdempotent | Data_Analysis/stocker/all_stock_names.py:175-179 | for a word x, "x .y" normalises to "x " and that to "x", so normalisation is not idempotent in general |
| CompleteNames.GuessIndustry | Data_Analysis/stocker/all_stock_names.py:151-163 | each board name is returned exactly for its prefix (60, 00, 30, 68), and "其他" exactly when none matches |
| CompleteNames.GuessAgreesWithExchange | Data_Analysis/stocker/all_stock_names.py:154-157 | a code tushare suffixes ".SZ" is guessed 深市主板, one it suffixes ".SH" 沪市主板 |
| CompleteNames.Expired | Data_Analysis/stocker/all_stock_names.py:64-70 | the cache is fresh iff it has a date and now is at most seven days after it |
| CompleteNames.ExpiryBoundary | Data_Analysis/stocker/all_stock_names.py:69-70 | exactly seven days after a save the cache is still fresh; one microsecond later it has expired |
| CompleteNames.ExpiredStaysExpired | Data_Analysis/stocker/all_stock_names.py:69-70 | an expired cache stays expired as time passes |
| CompleteNames.Load | Data_Analysis/stocker/all_stock_names.py:34-48 | a missing or unreadable file gives an empty, undated directory; otherwise the file's record |
| CompleteNames.Open | Data_Analysis/stocker/all_stock_names.py:21-32 | the constructor bulk-fetches iff the loaded cache has expired |
| CompleteNames.FreshCacheIgnoresNetwork | Data_Analysis/stocker/all_stock_names.py:30-32 | a fresh cache is used as loaded, whatever the network would answer |
| CompleteNames.Relabel | Data_Analysis/stocker/all_stock_names.py:96-98 | `DataFrame.rename` of two labels: every occurrence of the code label becomes 代码, every other occurrence of the name label becomes 名称, and all other labels stay where they are |
| CompleteNames.RenameListing | Data_Analysis/stocker/all_stock_names.py:94-98 | when code and name are both present, exactly those labels become 代码 and 名称 and every other label is kept; otherwise the same for 股票代码/股票名称; with neither pair the columns are unchanged |
| CompleteNames.AcceptedCells | Data_Analysis/stocker/all_stock_names.py:103-105 | a row is accepted iff its code cell is empty or all digits and its stripped name is non-empty; an empty code becomes "000000" |
| CompleteNames.LastName | Data_Analysis/stocker/all_stock_names.py:102-106 | a code with an accepted row is all digits, at least six long, with a stripped non-empty name |
| CompleteNames.HarvestRows | Data_Analysis/stocker/all_stock_names.py:101-106 | earlier keys keep their order; a code is present iff it was before or some row for it is accepted; the last accepted row supplies its name, and codes no row carries keep theirs |
| CompleteNames.HarvestMethod | Data_Analysis/stocker/all_stock_names.py:88-112 | a failed call, an empty frame or missing 代码/名称 columns add nothing; otherwise earlier codes keep their order, a code is present iff it was before or some accepted row carries it, and the last accepted row for a code gives its name; every new or changed entry is a clean digit code with a stripped name |
| CompleteNames.Project | Data_Analysis/stocker/all_stock_names.py:83 | the second method's frame is exactly the 代码 and 名称 cells of each row, or a failure when either column is missing |
| CompleteNames.Primary | Data_Analysis/stocker/all_stock_names.py:88-112 | the second method keeps the codes of the first in their order, adds nothing when its call fails, and every entry is a clean digit code with a stripped, non-empty name |
| CompleteNames.Backup | Data_Analysis/stocker/all_stock_names.py:114-129 | a failed call, an empty frame or missing columns add nothing; otherwise the rows are harvested as by the first two methods, with 代码/名称 read directly |
| CompleteNames.Collect | Data_Analysis/stocker/all_stock_names.py:86-129 | every collected entry is a digit code of at least six places with a stripped, non-empty name; when the first two methods collected something that is the answer, and otherwise it is what the backup harvests onto an empty dictionary |
| CompleteNames.BackupOnlyWhenEmpty | Data_Analysis/stocker/all_stock_names.py:115 | when the first two methods collected something, the backup call's reply has no effect |
| CompleteNames.SecondMethodOverwrites | Data_Analysis/stocker/all_stock_names.py:88-106 | a code the second method accepts gets the second method's name, whatever the first said |
| CompleteNames.FillIndustries | Data_Analysis/stocker/all_stock_names.py:135-139 | known industries are kept, and new codes get their board guess |
| CompleteNames.BulkFetch | Data_Analysis/stocker/all_stock_names.py:72-149 | nothing changes or is saved when akshare is missing or nothing was collected; otherwise the names are the old ones updated by the collected ones with old keys in order, industries are filled only for codes lacking one, the in-memory date is unchanged, and the saved record carries now |
| CompleteNames.BulkKeepsUnfetched | Data_Analysis/stocker/all_stock_names.py:132-133 | a code the fetch did not return keeps its name |
| CompleteNames.Refresh | Data_Analysis/stocker/all_stock_names.py:267-273 | after a refresh the names are exactly the collected entries (none if akshare is missing), the date is unset, and every code's industry is its board guess; when something was collected the refreshed directory is saved with the current time, and otherwise nothing is saved |
| CompleteNames.RefreshForgetsPast | Data_Analysis/stocker/all_stock_names.py:270-273 | the directory held before a refresh has no influence on its result |
| CompleteNames.GetName | Data_Analysis/stocker/all_stock_names.py:165-201 | a stored non-empty name is returned with no live lookup; else a non-empty live name is stored with the board guess as industry; else the placeholder "股票-<code>" is returned and nothing changes |
| CompleteNames.SecondLookupHits | Data_Analysis/stocker/all_stock_names.py:185-196 | a name found once, stored or live, is found again with no live lookup |
| CompleteNames.PlaceholderNotCached | Data_Analysis/stocker/all_stock_names.py:200-201 | after a placeholder answer the next lookup consults the live source again |
| CompleteNames.GetIndustry | Data_Analysis/stocker/all_stock_names.py:222-239 | the stored industry if any, else the board guess, with no change to the directory |
| CompleteNames.LookupsShareNormalization | Data_Analysis/stocker/all_stock_names.py:232-237 | tickers that normalise alike get the same name lookup and the same industry |
| CompleteNames.ConsistentIndustry | Data_Analysis/stocker/all_stock_names.py:239 | when every stored industry is a board guess, every ticker's industry is its board guess |
| CompleteNames.ConsistencyPreserved | Data_Analysis/stocker/all_stock_names.py:132-139 | name lookups, bulk fetches and refreshes keep every stored industry equal to its board guess |
| CompleteNames.Count | Data_Analysis/stocker/all_stock_names.py:263-265 | the count is the number of distinct codes with a name |
| CompleteNames.Search | Data_Analysis/stocker/all_stock_names.py:251-261 | the results are exactly the entries whose names contain the keyword, each with its stored name and `get_stock_industry`'s industry, in directory order, none repeated |
| CompleteNames.SearchEmptyKeyword | Data_Analysis/stocker/all_stock_names.py:254 | the empty keyword lists the whole directory |
| StaticNames.Init | Data_Analysis/stocker/stock_names.py:150-152 | the name and industry caches start as copies of the two built-in tables |
| StaticNames.Normalize | Data_Analysis/stocker/stock_names.py:164-168 | the normalised ticker contains no '.' and is no longer than the input; NormalizationsDiffer pins it against the complete manager's |
| StaticNames.NormalizationsDiffer | Data_Analysis/stocker/stock_names.py:164-168 | the complete manager's normalisation is this one followed by zero-padding of digit strings |
| StaticNames.ShortCodesDiffer | Data_Analysis/stocker/stock_names.py:164-168 | a short digit code is kept as is here but padded by the complete manager |
| StaticNames.GetName | Data_Analysis/stocker/stock_names.py:154-186 | a stored non-empty name is returned with no live lookup; else a non-empty live name is cached as a name only; else the placeholder is returned and nothing changes |
| StaticNames.GetIndustry | Data_Analysis/stocker/stock_names.py:188-202 | the stored industry or "其他", with no change to the manager |
| StaticNames.SuffixedCodeHits | Data_Analysis/stocker/stock_names.py:164-173 | a stored code answers for every suffixed spelling with no live lookup |
| StaticNames.BuiltInName | Data_Analysis/stocker/stock_names.py:21-91 | the initial manager names "600519.SH" 贵州茅台 with no live lookup |
| StaticNames.BuiltInIndustry | Data_Analysis/stocker/stock_names.py:94-144 | the initial manager gives 600519 the industry 白酒 |
| StaticNames.UnmappedIndustry | Data_Analysis/stocker/stock_names.py:188-202 | a listed code missing from the industry table (600887) gets "其他" |
| StaticNames.LookupKeepsAnswers | Data_Analysis/stocker/stock_names.py:176-183 | a lookup's change to the manager never changes the name any later lookup returns |
| StaticNames.BatchGetNames | Data_Analysis/stocker/stock_names.py:232-245 | the keys are exactly the raw input tickers (duplicates collapse), each mapped to what a lookup on the starting manager returns |
| StaticNames.AddStockName | Data_Analysis/stocker/stock_names.py:247-262 | the normalised ticker gets the new name and industry, and every other code keeps its entries |
| StaticNames.AddThenGet | Data_Analysis/stocker/stock_names.py:256-261 | after adding, any spelling of the ticker gets the new name with no live lookup and the new industry |
| StaticNames.AddLeavesOthers | Data_Analysis/stocker/stock_names.py:260-261 | adding leaves every other ticker's name and industry answers unchanged |
| NameFacade.FacadeName | Data_Analysis/stocker/stock_names.py:269-280 | the complete manager's name unless it is a placeholder, in which case the static manager answers and its state change is kept |
| NameFacade.StoredNameWins | Data_Analysis/stocker/stock_names.py:275-277 | a non-placeholder name stored in the complete directory is returned and nothing changes |
| NameFacade.TableAnswersOffline | Data_Analysis/stocker/stock_names.py:279-280 | when the complete directory and the network fail, the built-in table answers |
| NameFacade.UnknownTickerPlaceholder | Data_Analysis/stocker/stock_names.py:275-280 | an unknown ticker gets the static manager's unpadded placeholder |
| NameFacade.FacadeIndustry | Data_Analysis/stocker/stock_names.py:283-294 | the complete manager's industry unless it is empty or "其他", else the static manager's |
| NameFacade.BoardCodesNeverFallBack | Data_Analysis/stocker/stock_names.py:289-294 | with guess-consistent industries, a code on one of the four boards gets its board name and the static table is never consulted |
| NameFacade.GetStockInfo | Data_Analysis/stocker/stock_names.py:337-351 | the raw code, the facade name, then the facade industry read after the name lookup's state change |
| NameFacade.InfoSeesNameLookup | Data_Analysis/stocker/stock_names.py:347-351 | a live name found by the complete manager sets the industry that the same call then reports |

## Left out

- Network calls, pickle files, `os.path.exists`, `print`, `time.sleep` and `datetime.now()` are not modelled as I/O. The network answers, the file's record and the clock are parameters, and sleeps are a delay log.
- The mock series' random walk and its Open/High/Low perturbations are floating-point numerics. They are parameters, as is numpy's seeding from `hash(ticker)`. Only the row count, the dates and the volume bounds are modelled.
- Prices are integers and dates are day numbers. pandas dtypes, `pd.to_datetime`, the promotion of a `Date` index by `reset_index`, and the order of rows with equal dates are not modelled; `sort_values` is not stable.
- With duplicate column labels, the first occurrence is used.
- Case mapping and `isdigit` cover ASCII only.
- Cells of the listing frames are text, so `str()` of non-string cells is not modelled.
- CompleteNames.NormalizeIdempotent: idempotence is proved only when the first result does not end in whitespace, because it is false otherwise (see NormalizeNotIdempotent).
- StaticNames.AddStockName: the default value "其他" of the industry argument is the caller's choice, so the industry is always passed explicitly.
- The random draws are one integer function per call of `fetch_stock_data`: the three akshare attempts and the mock series read the same `draw`, whereas numpy would draw fresh numbers each time. No stated property depends on the draws being shared.
- The live name lookup of both managers is a fixed function of the code, so a ticker repeated in `batch_get_names` gets the same live answer each time. The network could answer differently from call to call.
- The default `period="max"` of `fetch_stock_data` is not modelled: the period is always passed.
- `show_stock_coverage` is printing plus a float percentage.
- The one-line delegating wrappers are not modelled: `get_stock_data`, `safe_get_stock_data`, `get_complete_stock_name`, `get_complete_stock_industry`, `search_stocks`, `get_stocks_count`, `refresh_stock_names`, `add_stock_mapping`, `search_stocks_by_name`, `get_all_stocks_count` and `refresh_all_stock_names` at module level.
- The Jdata package, the demo and test scripts, and `path_config.py` are not part of this model.
