# Stock market visualizer: symbol catalog and report bookkeeping

This project models two parts of the stock market visualizer in Dafny:

- **The symbol catalog (`StockDataManager`).** It turns the exchange-symbol-list
  response into an insertion-ordered dictionary `stocks`, keyed by `Code`, and a
  list `symbols` of its keys. The catalog then answers lookups from memory.
- **The report bookkeeping (`StockReport`), without its window.** This covers the
  list of report entries, the selected index, the dropdown's values and text, the
  volume formatting, and the two computations in `plot_stock` that decide where
  the chart is annotated.

Modules:

- `Common` (common.dfy): `Option`, `Result` and the Python exceptions that escape.
- `Catalog` (catalog.dfy): values and properties for the catalog.
  - A response is a transport failure, or a status with a body that is either
    unparsable or an array of elements.
  - A Python dictionary is a map plus the order in which its keys were first
    inserted (`Dict`).
  - The ingestion loop is a left fold (`Ingest`) that stops at the first element
    that raises.
  - `_fetch_from_api` as a whole is `Fetch`.
- `DataManager` (data_manager.dfy): the class `StockDataManager`.
  - Its fields `stocks`, `keyOrder` (the dictionary's key order) and `symbols`.
  - `FetchFromApi` is the loop of the source, proved equal to `Catalog.Fetch`.
  - `Valid()` keeps the dictionary well formed: every key is listed once in `keyOrder`.
  - `Catalog.Synced` is the invariant that `symbols` is exactly that key list. A
    fetch re-establishes it only when it runs to the end.
- `Formatting` (formatting.dfy): `str` on integers, with its round trip through
  `int`, and `_format_volume`.
- `Plotting` (plotting.dfy): `min`/`max`/`list.index` for the annotated extremes,
  the tick positions and the tick labels.
- `Visualizer` (visualizer.dfy): the class `StockReport` and the search of
  `on_stock_selected`.

Inputs that the source obtains from outside become parameters:

- The HTTP response (status and parsed body).
- The quote that `fetch_and_add_stock` would obtain.
- The generated price history.
- The 30 date labels that `plot_stock` builds from the clock.

Behaviour of the code that a reader might not expect, all of it modelled as written:

- A non-200 status, a transport error or an unparsable body does not clear the
  catalog: `stocks` and `symbols` keep their values (`Catalog.FetchFailureChangesNothing`).
- `stocks` and `symbols` can be left out of step. An element that raises mid-loop
  leaves the entries inserted so far in `stocks` while `symbols` keeps its old
  value (`Catalog.FetchPartialFailure`, `Catalog.PartialFailureDesyncs`).
- A stored record copies whatever JSON value each of its seven fields holds, and
  `None` for a missing one; the fields need not be strings.
- The class defines neither `CACHE_FILE` nor `_load_from_cache` nor
  `_save_to_cache`, so `load_symbols` always ends in an AttributeError
  (`DataManager.StockDataManager.LoadSymbols`). `__init__` calls `load_symbols`
  (stock_data_manager.py:17), so constructing a `StockDataManager` never returns
  normally, and `main` stops with that AttributeError at its first statement that
  builds one (visualizer.py:294). The constructor of the model stops before that
  call; `LoadSymbols` models the call itself.

## Model

| member | source | states |
|---|---|---|
| Catalog.RecordOf | stock_data_manager.py:43-51 | the record built from one element; no contract of its own, its meaning is stated by `Catalog.RecordCopiesFields` |
| Catalog.RecordCopiesFields | stock_data_manager.py:42-51 | a stored record copies each of the seven fields the element has, holds `None` for each it lacks, and ignores all other fields |
| Catalog.ToEntry | stock_data_manager.py:41-51 | an element yields an entry exactly when it is a JSON object whose `Code` (`None` when absent) is hashable, so the iteration does not raise; the entry's key is that `Code` and its record is built from the element's fields |
| Catalog.Put | stock_data_manager.py:43 | `stocks[code] = record`; no contract of its own, stated by `Catalog.PutPreservesWellFormed` and, for the class, `DataManager.StockDataManager.SetItem` |
| Catalog.PutPreservesWellFormed | stock_data_manager.py:43-51 | `stocks[code] = record` keeps every key listed once, stores the record, appends only a new key, does not move an existing key, and leaves every other key's record unchanged |
| Catalog.Ingest | stock_data_manager.py:41-51 | the loop as a fold that stops at the first element that raises; no contract of its own, stated by the `Catalog.Ingest*` lemmas below (well formed, keys kept, completes iff, stops at failure, keys, untouched, last write wins, new keys, first-appearance order, idempotence) |
| Catalog.FailureIndex | stock_data_manager.py:41-58 | the first element that makes the loop raise: every element before it is ingestible, and it is not |
| Catalog.IngestPreservesWellFormed | stock_data_manager.py:41-51 | however the loop ends, the dictionary still lists each key exactly once |
| Catalog.IngestKeepsEntries | stock_data_manager.py:41-51 | the loop never removes a key and never moves one: the old key order is a prefix of the new |
| Catalog.IngestCompletesIff | stock_data_manager.py:41-58 | the loop runs to the end exactly when no element raises |
| Catalog.IngestStopsAtFailure | stock_data_manager.py:41-58 | a loop that raises leaves exactly the entries of the elements before the first bad one |
| Catalog.IngestKeys | stock_data_manager.py:41-53 | after a complete loop the keys are the old keys together with the codes of the response |
| Catalog.IngestUntouched | stock_data_manager.py:41-51 | a key that no element carries keeps its old record, or stays absent |
| Catalog.IngestLastWriteWins | stock_data_manager.py:41-51 | for a code that occurs several times, the stored record is the one built from its last element |
| Catalog.IngestNewKeys | stock_data_manager.py:41-53 | the keys a complete loop adds come after all old keys, were not keys before, and are codes of the response |
| Catalog.IngestFirstAppearanceOrder | stock_data_manager.py:41-53 | the added keys are ordered by their first appearance in the response; a repeated code does not move |
| Catalog.IngestOverwritesAlike | stock_data_manager.py:41-51 | the record of a code in the response does not depend on what the dictionary held before |
| Catalog.IngestTwiceSameEntries | stock_data_manager.py:41-51 | a second pass over the same complete response leaves every record as the first pass left it |
| Catalog.IngestIdempotent | stock_data_manager.py:41-51 | ingesting the same complete response twice gives the same dictionary, key order included, as ingesting it once |
| Catalog.Fetch | stock_data_manager.py:31-58 | `_fetch_from_api` on a response; no contract of its own, stated by `Catalog.FetchFailureChangesNothing`, `Catalog.FetchSyncs`, `Catalog.FetchNeverRemoves`, `Catalog.FetchPartialFailure`, `Catalog.PartialFailureDesyncs`, `Catalog.FetchIdempotent`, and matched by `DataManager.StockDataManager.FetchFromApi` |
| Catalog.FetchFailureChangesNothing | stock_data_manager.py:33-58 | a transport failure, a non-200 status or an unparsable body leaves `stocks` and `symbols` exactly as they were |
| Catalog.FetchSyncs | stock_data_manager.py:37-53 | after a fetch that runs to the end, `symbols` lists exactly the keys of `stocks` in insertion order, each once; old keys keep their places and every code is a key |
| Catalog.FetchNeverRemoves | stock_data_manager.py:31-58 | no fetch, successful or not, removes or moves a key that was present before |
| Catalog.FetchPartialFailure | stock_data_manager.py:41-58 | when an element raises, the entries inserted before it stay in `stocks` and `symbols` keeps its old value |
| Catalog.PartialFailureDesyncs | stock_data_manager.py:41-58 | an example: a good element followed by a non-object leaves a key in `stocks` that `symbols` does not list |
| Catalog.FetchIdempotent | stock_data_manager.py:31-58 | fetching the same response twice in a row leaves the state of fetching it once |
| Catalog.SingleRecordScenario | stock_data_manager.py:37-53 | a response with one AAPL record gives `symbols == ["AAPL"]` and a record named "Apple Inc" |
| DataManager.StockDataManager.constructor | stock_data_manager.py:15-16 | the catalog starts with an empty dictionary and an empty list, in step with each other |
| DataManager.StockDataManager.FetchFromApi | stock_data_manager.py:31-58 | the loop keeps the dictionary well formed and leaves exactly the state `Catalog.Fetch` gives for the response |
| DataManager.StockDataManager.SetItem | stock_data_manager.py:43-51 | one dictionary assignment: the dictionary stays well formed, becomes `Put` of the old one, and `symbols` is untouched |
| DataManager.StockDataManager.LoadSymbols | stock_data_manager.py:19-29 | without a forced refresh it raises on `CACHE_FILE` before any change; with one it fetches and then raises on `_save_to_cache` |
| DataManager.StockDataManager.RefreshSymbols | stock_data_manager.py:72-75 | a refresh fetches from the response and then raises on `_save_to_cache` |
| DataManager.StockDataManager.GetSymbols | stock_data_manager.py:60-62 | returns the symbol list and changes nothing |
| DataManager.StockDataManager.GetStockInfo | stock_data_manager.py:64-66 | the stored record for a key, the empty record for any other symbol; nothing changes |
| DataManager.StockDataManager.GetAllStocks | stock_data_manager.py:68-70 | returns the whole dictionary, records and insertion order, well formed, and changes nothing |
| Formatting.IntToDecimal | visualizer.py:71 | `str` on an integer; no contract of its own, stated by `Formatting.IntToDecimalRoundTrip` and `Formatting.CanonicalIsIntToDecimal` |
| Formatting.NatToDecimalRoundTrip | visualizer.py:71 | `str` of a non-negative integer is non-empty, digits only, has no leading zero, and reads back as the integer |
| Formatting.IntToDecimalRoundTrip | visualizer.py:71 | `str(n)` is canonical (no leading zero, no `-0`) and `int(str(n)) == n` for every integer, negatives included |
| Formatting.NatToDecimalOfDigits | visualizer.py:71 | a digit string without a leading zero is `str` of the number it denotes |
| Formatting.CanonicalIsIntToDecimal | visualizer.py:71 | every canonical text parses and is `str` of its value, so `str` is a bijection between integers and canonical texts |
| Formatting.FormatVolume | visualizer.py:65-71 | one million or more takes the M form (volume in millions), one thousand up to a million the K form (in thousands), anything smaller exactly `str(volume)`, a canonical text that reads back as the volume |
| Plotting.Min | visualizer.py:155 | the lowest price occurs in the list and is at most every price |
| Plotting.Max | visualizer.py:156 | the highest price occurs in the list and is at least every price |
| Plotting.IndexOf | visualizer.py:157-158 | `list.index` gives a valid position holding the value, with no earlier position holding it |
| Plotting.PriceExtremes | visualizer.py:155-158 | an empty list raises ValueError in `min`; otherwise the min and max indices are valid, bound every price, and are each the first position of their value |
| Plotting.ExtremesCoincideIffFlat | visualizer.py:155-158 | the lowest and highest annotations show the same price exactly when all prices are equal |
| Plotting.TickPositions | visualizer.py:149 | there are ceil(n/5) tick positions and the k-th is 5k |
| Plotting.TickPositionsAreMultiplesOf5 | visualizer.py:149 | a position is a tick exactly when it is a multiple of five below the number of prices |
| Plotting.TickLabels | visualizer.py:150 | the label list of the ticks; no contract of its own, stated by `Plotting.TickLabelsOfChart` |
| Plotting.TickLabelsOfChart | visualizer.py:135-150 | one label per tick: the date at 5k while the date list reaches, else the empty string; with 30 dates only the first six ticks can carry a date |
| Visualizer.HistoryOrEmpty | visualizer.py:58 | `historical_prices or []`: empty exactly when the argument is missing or empty, otherwise the given list |
| Visualizer.SymbolsOf | visualizer.py:85 | the entries' symbols in list order; no contract of its own, stated by `Visualizer.FindSymbolIffListed` and `Visualizer.StockReport.PopulateDropdown` |
| Visualizer.FindSymbol | visualizer.py:95-99 | the search yields the first position whose entry has the symbol, or nothing when no entry has it |
| Visualizer.FindSymbolAfterAppend | visualizer.py:49-59 | after an append, a search for the new symbol finds an earlier entry with that symbol if there is one; a new symbol is found at the end |
| Visualizer.FindSymbolIffListed | visualizer.py:85-100 | the search over the entries finds a symbol exactly when it is among the entries' symbols, at a position holding it |
| Visualizer.TruncateToInt | visualizer.py:207 | `int(float(...))` truncates toward zero: the result lies within one of the value, on the zero side |
| Visualizer.QuoteEntry | visualizer.py:204-208 | the appended entry keeps the symbol, `"N/A"` and the history; a missing numeric field gives 0; the change is `change_pct * 100`; the volume is the quote's volume truncated toward zero |
| Visualizer.StockReport.constructor | visualizer.py:14-16 | the report starts with no entries and selected index 0 |
| Visualizer.StockReport.AddStock | visualizer.py:49-59 | the list grows by one, earlier entries are unchanged, the new entry is last with the given fields, and a missing or empty history is stored as an empty list |
| Visualizer.StockReport.PopulateDropdown | visualizer.py:78-90 | a non-empty symbol list becomes the values and its first element is shown; otherwise the values are the entries' symbols and the first entry is shown and selected |
| Visualizer.StockReport.OnStockSelected | visualizer.py:92-103 | a symbol with an entry selects its first entry and leaves the list alone; any other symbol raises AttributeError with nothing changed |
| Visualizer.StockReport.FetchAndAddStock | visualizer.py:200-214 | a truthy quote appends one entry and selects it (index `len(stocks) - 1`), the all-zero entry when it has no numeric field; an exception or a falsy result changes nothing |

## Left out

- Network access (`requests.get` in `_fetch_from_api` and in the module-level
  `fetch_stock_data`): the response is a parameter. `fetch_stock_data` itself is
  not part of this model.
- The cache (`CACHE_FILE`, `_load_from_cache`, `_save_to_cache`): none of them is
  defined in the class, so only the resulting AttributeError is modelled. No cache
  file is ever read or written, so there is no cache round trip to model.
- `StockReport.fetch_and_add_stock` calls `self.data_manager.fetch_stock_data`,
  which `StockDataManager` does not define. As written, that call raises and the
  `except` swallows it. `FetchAndAddStock` takes the call's outcome as a parameter,
  which covers that exception (`Raised`).
- `load_stock_from_memory` (called by `on_stock_selected`) is not defined anywhere.
  Only the AttributeError it causes is modelled.
- `create_report_from_api` calls `StockReport(root)` without the data manager, so
  it cannot run. It and `display_text_report`, `main` and `on_closing` are not part
  of this model.
- Tkinter and matplotlib: widget construction, `update_display` and every drawing
  call of `plot_stock` are left out. So are two exceptions that come out of
  `update_display` after the selected index is set:
  - the IndexError it would raise on an out-of-range selection; `SelectionValid`
    states when the index is in range;
  - the ValueError of `min([])` in `plot_stock` when the selected entry's history
    is empty (`AddStock` allows that). It can escape from `on_stock_selected`
    (visualizer.py:98) and from the else branch of `populate_dropdown`
    (visualizer.py:89-90). `Plotting.PriceExtremes` models that error.
- Visualizer.StockReport.OnStockSelected: returns no error when the matched entry
  has an empty history, where the source raises ValueError from `update_display`
  after setting the selected index, because the drawing path is not modelled.
- Visualizer.StockReport.PopulateDropdown: does not report the same ValueError in
  its else branch when the first entry has an empty history, for the same reason.
- `generate_historical_data` draws random numbers: the history is a parameter.
  The 30 date labels of `plot_stock` come from the clock: they are a parameter too.
- Floating point: prices, changes and quotients are exact reals. There is no
  rounding in `change_pct * 100` or in `volume / 1_000_000`, and `min`/`max` over
  NaN are not modelled. `_format_currency`, the percent-change text, the average
  price and the market-cap string are left out.
- Formatting.FormatVolume: gives the exact quotient for the M and K forms instead
  of its two-decimal text. The effects of that rounding, such as 999,999 printing
  as `1000.00K`, are not modelled.
- JSON numbers and booleans as field values are not modelled. A field holds a
  string, `null` or a composite value. Numbers and booleans would bring in Python's
  key equalities such as `True == 1 == 1.0`.
- A top-level JSON value that cannot be iterated is modelled like an unparsable
  body. Either way the exception comes before any insertion. A top-level object
  or string is iterated over its keys or characters, none of which is an object:
  it is modelled as a body of that many non-object elements, so `{}` and `""`
  complete the loop and re-sync `symbols`, and a non-empty one raises at its
  first element.
- Aliasing: `get_symbols` and `get_all_stocks` return the live list and dictionary.
  The model returns their values.
- Console output (`print`).
