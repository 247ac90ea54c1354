/**
 * The bookkeeping of `StockReport` without its window: the list of report
 * entries, the selected index, and the dropdown's values and current text.
 */
module Visualizer {
  import opened Common

  /** One report entry, the dictionary that `add_stock` appends. */
  datatype StockEntry = StockEntry(
    symbol: string, price: real, change: real, volume: int,
    marketCap: string, historicalPrices: seq<real>)

  /** `historical_prices or []`: a missing list and an empty list both become the empty list. */
  function HistoryOrEmpty(historicalPrices: Option<seq<real>>): (r: seq<real>)
    ensures r == [] <==> historicalPrices == None || historicalPrices == Some([])
    ensures historicalPrices.Some? ==> r == historicalPrices.value
  {
    match historicalPrices
    case None => []
    case Some(prices) => prices
  }

  /** `[stock['symbol'] for stock in self.stocks]`. */
  function SymbolsOf(entries: seq<StockEntry>): seq<string> {
    seq(|entries|, i requires 0 <= i < |entries| => entries[i].symbol)
  }

  /** The first position of an entry with the given symbol, if any. */
  function FindSymbol(entries: seq<StockEntry>, symbol: string): (r: Option<nat>)
    ensures r.Some? ==> r.value < |entries| && entries[r.value].symbol == symbol
    ensures r.Some? ==> forall j :: 0 <= j < r.value ==> entries[j].symbol != symbol
    ensures r.None? ==> forall j :: 0 <= j < |entries| ==> entries[j].symbol != symbol
  {
    if entries == [] then None
    else if entries[0].symbol == symbol then Some(0)
    else match FindSymbol(entries[1..], symbol)
      case None => None
      case Some(i) => Some(i + 1)
  }

  /**
   * After an append, a search for the new entry's symbol finds the earlier entry
   * that has it, if any; only a symbol new to the list is found at the end.
   */
  lemma {:induction false} FindSymbolAfterAppend(entries: seq<StockEntry>, e: StockEntry)
    ensures FindSymbol(entries + [e], e.symbol) ==
      if FindSymbol(entries, e.symbol).Some? then FindSymbol(entries, e.symbol) else Some(|entries|)
    decreases |entries|
  {
    if entries != [] {
      assert (entries + [e])[1..] == entries[1..] + [e];
      FindSymbolAfterAppend(entries[1..], e);
    }
  }

  /** A symbol is offered by the entry list exactly when the search finds an entry for it. */
  lemma {:induction false} FindSymbolIffListed(entries: seq<StockEntry>, symbol: string)
    ensures FindSymbol(entries, symbol).Some? <==> symbol in SymbolsOf(entries)
    ensures FindSymbol(entries, symbol).Some? ==> SymbolsOf(entries)[FindSymbol(entries, symbol).value] == symbol
  {
    var names := SymbolsOf(entries);
    var r := FindSymbol(entries, symbol);
    if r.Some? {
      assert names[r.value] == symbol;
    } else {
      assert forall j :: 0 <= j < |names| ==> names[j] == entries[j].symbol != symbol;
    }
  }

  /** Python's `int(x)` on a float: truncation toward zero. */
  function TruncateToInt(x: real): (n: int)
    ensures 0.0 <= x ==> 0 <= n && n as real <= x < n as real + 1.0
    ensures x < 0.0 ==> n <= 0 && n as real - 1.0 < x <= n as real
  {
    if x >= 0.0 then x.Floor else -((-x).Floor)
  }

  /** `data.get(name, 0)` after `float(...)`. */
  function GetOrZero(fields: map<string, real>, name: string): real {
    if name in fields then fields[name] else 0.0
  }

  /**
   * What the quote request in `fetch_and_add_stock` gives: an exception (which
   * the method catches), a falsy result (`None` or `{}`), or a truthy dictionary,
   * of which only the numeric fields, already converted by `float`, are kept; a
   * truthy dictionary with no such field is `Returned(map[])`.
   */
  datatype QuoteFetch = Raised(error: PyError) | Falsy | Returned(fields: map<string, real>)

  /** The entry `fetch_and_add_stock` appends for a quote; every missing numeric field counts as 0. */
  function QuoteEntry(symbol: string, fields: map<string, real>, history: seq<real>): (e: StockEntry)
    ensures e.symbol == symbol && e.marketCap == "N/A" && e.historicalPrices == history
    ensures "close" in fields ==> e.price == fields["close"]
    ensures "close" !in fields ==> e.price == 0.0
    ensures "change_pct" !in fields ==> e.change == 0.0
    ensures "volume" !in fields ==> e.volume == 0
    ensures "change_pct" in fields ==> e.change == fields["change_pct"] * 100.0
    ensures "volume" in fields && fields["volume"] >= 0.0 ==>
      0 <= e.volume && e.volume as real <= fields["volume"] < e.volume as real + 1.0
    ensures "volume" in fields && fields["volume"] < 0.0 ==>
      e.volume <= 0 && e.volume as real - 1.0 < fields["volume"] <= e.volume as real
  {
    StockEntry(symbol, GetOrZero(fields, "close"), GetOrZero(fields, "change_pct") * 100.0,
               TruncateToInt(GetOrZero(fields, "volume")), "N/A", history)
  }

  class StockReport {
    var stocks: seq<StockEntry>
    var selectedStock: int
    /** The dropdown's list of values. */
    var dropdownValues: seq<string>
    /** The text variable of the dropdown: what it shows, and what the user picked. */
    var stockVar: string

    /** The selected index names an entry, as `update_display` needs. */
    predicate SelectionValid()
      reads this
    {
      0 <= selectedStock < |stocks|
    }

    /** The state `__init__` leaves once the widgets are built: no entries, index 0, an empty dropdown. */
    constructor ()
      ensures stocks == [] && selectedStock == 0
      ensures dropdownValues == [] && stockVar == ""
    {
      stocks := [];
      selectedStock := 0;
      dropdownValues := [];
      stockVar := "";
    }

    /** `add_stock`: the new entry goes last and nothing else changes. */
    method AddStock(symbol: string, price: real, change: real, volume: int,
                    marketCap: string, historicalPrices: Option<seq<real>>)
      modifies this
      ensures |stocks| == |old(stocks)| + 1
      ensures stocks[..|old(stocks)|] == old(stocks)
      ensures stocks[|stocks| - 1] ==
        StockEntry(symbol, price, change, volume, marketCap, HistoryOrEmpty(historicalPrices))
      ensures historicalPrices == None || historicalPrices == Some([]) ==> stocks[|stocks| - 1].historicalPrices == []
      ensures selectedStock == old(selectedStock)
      ensures dropdownValues == old(dropdownValues) && stockVar == old(stockVar)
    {
      stocks := stocks + [StockEntry(symbol, price, change, volume, marketCap, HistoryOrEmpty(historicalPrices))];
    }

    /**
     * `populate_dropdown`. A non-empty symbol list becomes the dropdown's values
     * and its first symbol the shown text, with the selected index untouched.
     * Otherwise the values are the entries' symbols in list order and, when there
     * is an entry, the first one is shown and selected.
     */
    method PopulateDropdown(availableSymbols: Option<seq<string>>)
      modifies this
      ensures stocks == old(stocks)
      ensures availableSymbols.Some? && availableSymbols.value != [] ==>
        && dropdownValues == availableSymbols.value
        && stockVar == availableSymbols.value[0]
        && selectedStock == old(selectedStock)
      ensures !(availableSymbols.Some? && availableSymbols.value != []) ==>
        && |dropdownValues| == |stocks|
        && (forall i :: 0 <= i < |stocks| ==> dropdownValues[i] == stocks[i].symbol)
        && (stocks != [] ==> stockVar == stocks[0].symbol && selectedStock == 0 && SelectionValid())
        && (stocks == [] ==> stockVar == old(stockVar) && selectedStock == old(selectedStock))
    {
      if availableSymbols.Some? && availableSymbols.value != [] {
        dropdownValues := availableSymbols.value;
        stockVar := availableSymbols.value[0];
      } else {
        var symbols := SymbolsOf(stocks);
        dropdownValues := symbols;
        if symbols != [] {
          stockVar := symbols[0];
          selectedStock := 0;
        }
      }
    }

    /**
     * `on_stock_selected`: select the first entry whose symbol is the picked
     * text. For a symbol with no entry the source calls `load_stock_from_memory`,
     * which the class does not define, so an AttributeError escapes.
     */
    method OnStockSelected() returns (error: Option<PyError>)
      modifies this
      ensures stocks == old(stocks) && dropdownValues == old(dropdownValues) && stockVar == old(stockVar)
      ensures FindSymbol(stocks, stockVar).Some? ==>
        error == None && selectedStock == FindSymbol(stocks, stockVar).value && SelectionValid()
      ensures FindSymbol(stocks, stockVar).None? ==>
        error == Some(AttributeError("load_stock_from_memory")) && selectedStock == old(selectedStock)
    {
      var idx := 0;
      while idx < |stocks|
        invariant 0 <= idx <= |stocks|
        invariant forall j :: 0 <= j < idx ==> stocks[j].symbol != stockVar
      {
        if stocks[idx].symbol == stockVar {
          selectedStock := idx;
          error := None;
          return;
        }
        idx := idx + 1;
      }
      error := Some(AttributeError("load_stock_from_memory"));
    }

    /**
     * `fetch_and_add_stock` given what the quote request produced and the
     * generated history. A truthy quote appends one entry and selects it, with 0
     * for each numeric field it lacks; an exception or a falsy result changes
     * nothing.
     */
    method FetchAndAddStock(symbol: string, fetched: QuoteFetch, history: seq<real>)
      modifies this
      ensures dropdownValues == old(dropdownValues) && stockVar == old(stockVar)
      ensures fetched.Returned? ==>
        && stocks == old(stocks) + [QuoteEntry(symbol, fetched.fields, history)]
        && selectedStock == |stocks| - 1
        && SelectionValid() && stocks[selectedStock].symbol == symbol
      ensures fetched.Returned? && fetched.fields == map[] ==>
        stocks[selectedStock] == StockEntry(symbol, 0.0, 0.0, 0, "N/A", history)
      ensures !fetched.Returned? ==>
        stocks == old(stocks) && selectedStock == old(selectedStock)
    {
      if fetched.Returned? {
        var entry := QuoteEntry(symbol, fetched.fields, history);
        AddStock(symbol, entry.price, entry.change, entry.volume, entry.marketCap, Some(history));
        selectedStock := |stocks| - 1;
      }
    }
  }
}
