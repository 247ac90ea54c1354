/**
 * `StockDataManager`: the in-memory symbol catalog that the report reads. Its
 * dictionary `stocks` is modelled by the map `stocks` together with `keyOrder`,
 * the order in which a Python dictionary remembers its keys; `symbols` is the
 * list handed to the dropdown.
 */
module DataManager {
  import opened Common
  import opened Catalog

  class StockDataManager {
    var stocks: map<Key, SymbolRecord>
    var keyOrder: seq<Key>
    var symbols: seq<Key>

    /** The dictionary's key order lists each of its keys once. */
    ghost predicate Valid()
      reads this
    {
      WellFormed(Dict(stocks, keyOrder))
    }

    /** Both attributes as one value. */
    function State(): CatalogState
      reads this
    {
      CatalogState(Dict(stocks, keyOrder), symbols)
    }

    /**
     * The two attribute initialisations of `__init__`: an empty dictionary and an
     * empty list, so `symbols` starts in step with `stocks`. `__init__` then calls
     * `LoadSymbols`.
     */
    constructor ()
      ensures Valid() && Synced(State())
      ensures stocks == map[] && keyOrder == [] && symbols == []
    {
      stocks := map[];
      keyOrder := [];
      symbols := [];
    }

    /**
     * `_fetch_from_api` on the response the request produced. Every exception is
     * caught and logged, so the method always returns normally.
     */
    method FetchFromApi(resp: Response)
      requires Valid()
      modifies this
      ensures Valid()
      ensures State() == Fetch(old(State()), resp)
    {
      if !IsOk(resp) {
        return;
      }
      var items := resp.body.items;
      ghost var target := Ingest(Dict(stocks, keyOrder), items);
      var i := 0;
      while i < |items|
        invariant 0 <= i <= |items|
        invariant Valid()
        invariant symbols == old(symbols)
        invariant Ingest(Dict(stocks, keyOrder), items[i..]) == target
      {
        IngestStep(Dict(stocks, keyOrder), items, i);
        var item := items[i];
        if item.NonObject? {
          assert target == Ingestion(Dict(stocks, keyOrder), false);
          return;  // `item.get` raises AttributeError
        }
        var code := Get(item.fields, "Code");
        if !code.Hashable() {
          assert target == Ingestion(Dict(stocks, keyOrder), false);
          return;  // the assignment raises TypeError: unhashable key
        }
        SetItem(code, RecordOf(item.fields));
        i := i + 1;
      }
      assert items[i..] == [];
      symbols := keyOrder;
    }

    /**
     * `self.stocks[code] = record`: a new key goes to the end of the key order,
     * an existing key keeps its place and takes the new record.
     */
    method SetItem(code: Key, record: SymbolRecord)
      requires Valid()
      modifies this
      ensures Valid()
      ensures Dict(stocks, keyOrder) == Put(old(Dict(stocks, keyOrder)), code, record)
      ensures symbols == old(symbols)
    {
      PutPreservesWellFormed(Dict(stocks, keyOrder), code, record);
      if code !in stocks {
        keyOrder := keyOrder + [code];
      }
      stocks := stocks[code := record];
    }

    /**
     * `load_symbols`. The class defines neither `CACHE_FILE` nor `_save_to_cache`,
     * so the call always ends in an AttributeError: before anything happens when
     * the cache may be used, after the fetch when a refresh is forced.
     */
    method LoadSymbols(forceRefresh: bool, resp: Response) returns (error: PyError)
      requires Valid()
      modifies this
      ensures Valid()
      ensures !forceRefresh ==> error == AttributeError("CACHE_FILE") && State() == old(State())
      ensures forceRefresh ==> error == AttributeError("_save_to_cache") && State() == Fetch(old(State()), resp)
    {
      if !forceRefresh {
        error := AttributeError("CACHE_FILE");
        return;
      }
      FetchFromApi(resp);
      error := AttributeError("_save_to_cache");
    }

    /** `refresh_symbols`: `load_symbols` with the refresh forced. */
    method RefreshSymbols(resp: Response) returns (error: PyError)
      requires Valid()
      modifies this
      ensures Valid()
      ensures error == AttributeError("_save_to_cache")
      ensures State() == Fetch(old(State()), resp)
    {
      error := LoadSymbols(true, resp);
    }

    /** `get_symbols`: the symbol list, read from memory without any change. */
    method GetSymbols() returns (s: seq<Key>)
      ensures s == symbols
    {
      s := symbols;
    }

    /** `get_stock_info`: the stored record of a key, or the empty record (`None` here) for any other symbol. */
    method GetStockInfo(symbol: Key) returns (info: Option<SymbolRecord>)
      ensures symbol in stocks ==> info == Some(stocks[symbol])
      ensures symbol !in stocks ==> info == None
    {
      if symbol in stocks {
        info := Some(stocks[symbol]);
      } else {
        info := None;
      }
    }

    /** `get_all_stocks`: the whole dictionary, its key order included. */
    method GetAllStocks() returns (all: Dict)
      requires Valid()
      ensures all == Dict(stocks, keyOrder) && WellFormed(all)
    {
      all := Dict(stocks, keyOrder);
    }
  }
}
