/**
 * The symbol catalog of `StockDataManager` as values: the JSON response of the
 * exchange-symbol-list endpoint, the insertion-ordered dictionary `stocks`, the
 * ingestion loop of `_fetch_from_api` as a left fold, and what that fold promises.
 */
module Catalog {
  import opened Common

  /**
   * A JSON value as `item.get(name)` returns it. `Null` is Python's `None`: a JSON
   * `null` or a missing field. `Composite` is a JSON array or object (kept as its
   * text); Python cannot use it as a dictionary key.
   */
  datatype Value = Null | Str(s: string) | Composite(json: string)
  {
    predicate Hashable() { !Composite? }
  }

  /** The values that can be keys of the `stocks` dictionary. */
  type Key = v: Value | v.Hashable() witness Null

  /** One element of the response array: a JSON object, or anything else. */
  datatype Item = Object(fields: map<string, Value>) | NonObject

  /** The seven-field record stored per symbol; `kind` is the `Type` field. */
  datatype SymbolRecord = SymbolRecord(
    code: Value, name: Value, country: Value, exchange: Value,
    currency: Value, kind: Value, isin: Value)

  /** The names of the fields a stored record copies. */
  const RECORD_FIELDS: set<string> := {"Code", "Name", "Country", "Exchange", "Currency", "Type", "Isin"}

  /** Python's `item.get(name)`: the field's value, or `None` when it is absent. */
  function Get(fields: map<string, Value>, name: string): Value {
    if name in fields then fields[name] else Null
  }

  /** The record built from one response object. */
  function RecordOf(fields: map<string, Value>): SymbolRecord {
    SymbolRecord(Get(fields, "Code"), Get(fields, "Name"), Get(fields, "Country"),
                 Get(fields, "Exchange"), Get(fields, "Currency"), Get(fields, "Type"),
                 Get(fields, "Isin"))
  }

  /**
   * A record copies each of the seven fields that the object has, holds `None`
   * for each one it lacks, and ignores every other field of the object.
   */
  lemma RecordCopiesFields(fields: map<string, Value>)
    ensures var r := RecordOf(fields);
      && ("Code" in fields ==> r.code == fields["Code"]) && ("Code" !in fields ==> r.code == Null)
      && ("Name" in fields ==> r.name == fields["Name"]) && ("Name" !in fields ==> r.name == Null)
      && ("Country" in fields ==> r.country == fields["Country"]) && ("Country" !in fields ==> r.country == Null)
      && ("Exchange" in fields ==> r.exchange == fields["Exchange"]) && ("Exchange" !in fields ==> r.exchange == Null)
      && ("Currency" in fields ==> r.currency == fields["Currency"]) && ("Currency" !in fields ==> r.currency == Null)
      && ("Type" in fields ==> r.kind == fields["Type"]) && ("Type" !in fields ==> r.kind == Null)
      && ("Isin" in fields ==> r.isin == fields["Isin"]) && ("Isin" !in fields ==> r.isin == Null)
    ensures RecordOf(fields) == RecordOf(map n | n in fields && n in RECORD_FIELDS :: fields[n])
  {
  }

  /** What one loop iteration inserts: a key and its record. */
  datatype Entry = Entry(key: Key, record: SymbolRecord)

  /**
   * The entry one response element yields, or `None` when the iteration raises:
   * `.get` on a non-object (AttributeError) or an unhashable `Code` (TypeError).
   */
  function ToEntry(item: Item): (e: Option<Entry>)
    ensures e.Some? <==> item.Object? && Get(item.fields, "Code").Hashable()
    ensures e.Some? ==> e.value.key == Get(item.fields, "Code") && e.value.record == RecordOf(item.fields)
  {
    match item
    case NonObject => None
    case Object(fields) =>
      var code := Get(fields, "Code");
      if code.Hashable() then Some(Entry(code, RecordOf(fields))) else None
  }

  /** A Python dictionary: its key-value pairs and the order in which keys were first inserted. */
  datatype Dict = Dict(entries: map<Key, SymbolRecord>, order: seq<Key>)

  /** No element occurs twice. */
  predicate Distinct(s: seq<Key>) {
    forall i, j :: 0 <= i < j < |s| ==> s[i] != s[j]
  }

  /** A sequence without repetitions has as many elements as the set of its elements. */
  lemma {:induction false} DistinctCardinality(s: seq<Key>)
    requires Distinct(s)
    ensures |set x | x in s| == |s|
    decreases |s|
  {
    if s != [] {
      DistinctCardinality(s[1..]);
      assert (set x | x in s) == {s[0]} + (set x | x in s[1..]);
      assert s[0] !in s[1..];
    }
  }

  /** The order lists every key exactly once. */
  predicate WellFormed(d: Dict) {
    && Distinct(d.order)
    && (forall k :: k in d.entries ==> k in d.order)
    && (forall k :: k in d.order ==> k in d.entries)
  }

  /** `d[k] = r`: a new key goes last, an existing key keeps its place and takes the new value. */
  function Put(d: Dict, k: Key, r: SymbolRecord): Dict {
    Dict(d.entries[k := r], if k in d.entries then d.order else d.order + [k])
  }

  /**
   * Assignment keeps the dictionary well formed, stores the value under its key,
   * appends only a new key, never moves a key already present, and leaves every
   * other key's value as it was.
   */
  lemma PutPreservesWellFormed(d: Dict, k: Key, r: SymbolRecord)
    requires WellFormed(d)
    ensures WellFormed(Put(d, k, r))
    ensures d.order <= Put(d, k, r).order
    ensures k in Put(d, k, r).entries && Put(d, k, r).entries[k] == r
    ensures k in d.entries ==> Put(d, k, r).order == d.order
    ensures k !in d.entries ==> Put(d, k, r).order == d.order + [k]
    ensures forall x :: x in d.entries && x != k ==> x in Put(d, k, r).entries && Put(d, k, r).entries[x] == d.entries[x]
  {
    if k !in d.entries {
      assert k !in d.order;
      var o := d.order + [k];
      forall i, j | 0 <= i < j < |o| ensures o[i] != o[j] {
        if j == |d.order| {
          assert o[i] == d.order[i];
        }
      }
    }
  }

  /** The state the fold reaches and whether it went through every element. */
  datatype Ingestion = Ingestion(dict: Dict, completed: bool)

  /** The loop of `_fetch_from_api`: insert the elements in order, stopping at the first that raises. */
  function Ingest(d: Dict, items: seq<Item>): Ingestion
    decreases |items|
  {
    if items == [] then Ingestion(d, true)
    else match ToEntry(items[0])
      case None => Ingestion(d, false)
      case Some(e) => Ingest(Put(d, e.key, e.record), items[1..])
  }

  /** One step of the fold, taken at position `i` of the response. */
  lemma IngestStep(d: Dict, items: seq<Item>, i: nat)
    requires i < |items|
    ensures ToEntry(items[i]).None? ==> Ingest(d, items[i..]) == Ingestion(d, false)
    ensures ToEntry(items[i]).Some? ==> var e := ToEntry(items[i]).value;
      Ingest(d, items[i..]) == Ingest(Put(d, e.key, e.record), items[i + 1..])
  {
    assert items[i..][0] == items[i] && items[i..][1..] == items[i + 1..];
  }

  /** Every element yields an entry, so the loop cannot raise. */
  predicate Ingestible(items: seq<Item>) {
    forall i :: 0 <= i < |items| ==> ToEntry(items[i]).Some?
  }

  /** The keys of an ingestible response, one per element, in response order. */
  function Codes(items: seq<Item>): (codes: seq<Key>)
    requires Ingestible(items)
    ensures |codes| == |items|
    ensures forall i :: 0 <= i < |items| ==> codes[i] == ToEntry(items[i]).value.key
  {
    if items == [] then [] else [ToEntry(items[0]).value.key] + Codes(items[1..])
  }

  /** The position of the first element that makes the loop raise, or `|items|` when there is none. */
  function FailureIndex(items: seq<Item>): (n: nat)
    ensures n <= |items|
    ensures Ingestible(items[..n])
    ensures n < |items| ==> ToEntry(items[n]).None?
  {
    if items == [] then 0
    else if ToEntry(items[0]).None? then 0
    else
      var m := FailureIndex(items[1..]);
      assert items[..m + 1] == [items[0]] + items[1..][..m];
      1 + m
  }

  /** The first position of `x` in `s`, or `|s|` when it does not occur. */
  function FirstIndex(s: seq<Key>, x: Key): nat {
    if s == [] then 0 else if s[0] == x then 0 else 1 + FirstIndex(s[1..], x)
  }

  lemma {:induction false} IngestPreservesWellFormed(d: Dict, items: seq<Item>)
    requires WellFormed(d)
    ensures WellFormed(Ingest(d, items).dict)
    decreases |items|
  {
    if items != [] {
      match ToEntry(items[0])
      case None =>
      case Some(e) =>
        PutPreservesWellFormed(d, e.key, e.record);
        IngestPreservesWellFormed(Put(d, e.key, e.record), items[1..]);
    }
  }

  /** Ingestion never removes a key and never moves one: the old key order is a prefix of the new. */
  lemma {:induction false} IngestKeepsEntries(d: Dict, items: seq<Item>)
    ensures d.entries.Keys <= Ingest(d, items).dict.entries.Keys
    ensures d.order <= Ingest(d, items).dict.order
    decreases |items|
  {
    if items != [] {
      match ToEntry(items[0])
      case None =>
      case Some(e) =>
        IngestKeepsEntries(Put(d, e.key, e.record), items[1..]);
    }
  }

  /** The loop runs to the end exactly when no element makes it raise. */
  lemma {:induction false} IngestCompletesIff(d: Dict, items: seq<Item>)
    ensures Ingest(d, items).completed <==> Ingestible(items)
    decreases |items|
  {
    if items != [] {
      match ToEntry(items[0])
      case None =>
      case Some(e) =>
        IngestCompletesIff(Put(d, e.key, e.record), items[1..]);
        assert Ingestible(items) <==> Ingestible(items[1..]) by {
          if Ingestible(items[1..]) {
            forall i | 0 <= i < |items| ensures ToEntry(items[i]).Some? {
              if i > 0 { assert items[i] == items[1..][i - 1]; }
            }
          }
        }
    }
  }

  /** A loop that raises has inserted exactly the elements before the first bad one. */
  lemma {:induction false} IngestStopsAtFailure(d: Dict, items: seq<Item>)
    ensures Ingest(d, items).dict == Ingest(d, items[..FailureIndex(items)]).dict
    ensures Ingest(d, items).completed <==> FailureIndex(items) == |items|
    decreases |items|
  {
    if items != [] {
      match ToEntry(items[0])
      case None =>
        assert items[..FailureIndex(items)] == [];
      case Some(e) =>
        var m := FailureIndex(items[1..]);
        IngestStopsAtFailure(Put(d, e.key, e.record), items[1..]);
        var pre := items[..1 + m];
        assert pre[0] == items[0] && pre[1..] == items[1..][..m];
    }
  }

  /** After a complete loop the keys are the old keys plus the codes of the response. */
  lemma {:induction false} IngestKeys(d: Dict, items: seq<Item>)
    requires Ingestible(items)
    ensures forall k :: k in Ingest(d, items).dict.entries <==> k in d.entries || k in Codes(items)
    decreases |items|
  {
    if items != [] {
      var e := ToEntry(items[0]).value;
      IngestKeys(Put(d, e.key, e.record), items[1..]);
      assert Codes(items) == [e.key] + Codes(items[1..]);
    }
  }

  /** A key no element carries keeps its old value, or stays absent. */
  lemma {:induction false} IngestUntouched(d: Dict, items: seq<Item>, k: Key)
    requires Ingestible(items)
    requires k !in Codes(items)
    ensures k in Ingest(d, items).dict.entries <==> k in d.entries
    ensures k in d.entries ==> Ingest(d, items).dict.entries[k] == d.entries[k]
    decreases |items|
  {
    if items != [] {
      var e := ToEntry(items[0]).value;
      assert Codes(items) == [e.key] + Codes(items[1..]);
      IngestUntouched(Put(d, e.key, e.record), items[1..], k);
    }
  }

  /** Last write wins: a key ends up with the record of the last element that carries it. */
  lemma {:induction false} IngestLastWriteWins(d: Dict, items: seq<Item>, i: nat)
    requires Ingestible(items)
    requires i < |items|
    requires forall j :: i < j < |items| ==> Codes(items)[j] != Codes(items)[i]
    ensures items[i].Object?
    ensures Codes(items)[i] in Ingest(d, items).dict.entries
    ensures Ingest(d, items).dict.entries[Codes(items)[i]] == RecordOf(items[i].fields)
    decreases |items|
  {
    var e := ToEntry(items[0]).value;
    var d' := Put(d, e.key, e.record);
    assert Codes(items) == [e.key] + Codes(items[1..]);
    if i == 0 {
      assert e.key !in Codes(items[1..]) by {
        forall j | 0 <= j < |items| - 1 ensures Codes(items[1..])[j] != e.key {
          assert Codes(items)[j + 1] == Codes(items[1..])[j];
        }
      }
      IngestUntouched(d', items[1..], e.key);
    } else {
      forall j | i - 1 < j < |items| - 1 ensures Codes(items[1..])[j] != Codes(items[1..])[i - 1] {
        assert Codes(items)[j + 1] == Codes(items[1..])[j];
      }
      IngestLastWriteWins(d', items[1..], i - 1);
    }
  }

  /** The keys a complete loop adds come after the old ones, are new, and occur in the response. */
  lemma {:induction false} IngestNewKeys(d: Dict, items: seq<Item>)
    requires WellFormed(d)
    requires Ingestible(items)
    ensures var o := Ingest(d, items).dict.order;
      forall p :: |d.order| <= p < |o| ==> o[p] !in d.entries && o[p] in Codes(items)
    decreases |items|
  {
    if items != [] {
      var e := ToEntry(items[0]).value;
      var d' := Put(d, e.key, e.record);
      var rest := Codes(items[1..]);
      assert Codes(items) == [e.key] + rest;
      PutPreservesWellFormed(d, e.key, e.record);
      IngestNewKeys(d', items[1..]);
      IngestKeepsEntries(d', items[1..]);
      var o := Ingest(d', items[1..]).dict.order;
      forall p | |d.order| <= p < |o| ensures o[p] !in d.entries && o[p] in Codes(items) {
        if p < |d'.order| {
          assert o[p] == d'.order[p];
        } else {
          assert o[p] in rest;
        }
      }
    }
  }

  /**
   * The ordering step for one more element in front of the response: a key that
   * `k0` put at position `lo` comes first, and the later keys, all different from
   * `k0`, keep their relative order.
   */
  lemma FirstAppearanceShift(o: seq<Key>, lo: nat, hi: nat, k0: Key, rest: seq<Key>)
    requires lo <= hi <= lo + 1 && hi <= |o|
    requires hi == lo + 1 ==> o[lo] == k0
    requires forall p :: hi <= p < |o| ==> o[p] != k0
    requires forall p, q :: hi <= p < q < |o| ==> FirstIndex(rest, o[p]) < FirstIndex(rest, o[q])
    ensures forall p, q :: lo <= p < q < |o| ==> FirstIndex([k0] + rest, o[p]) < FirstIndex([k0] + rest, o[q])
  {
    var codes := [k0] + rest;
    assert codes[1..] == rest;
    forall p, q | lo <= p < q < |o| ensures FirstIndex(codes, o[p]) < FirstIndex(codes, o[q]) {
      assert FirstIndex(codes, o[q]) == 1 + FirstIndex(rest, o[q]);
      if p >= hi {
        assert FirstIndex(codes, o[p]) == 1 + FirstIndex(rest, o[p]);
      }
    }
  }

  /** The keys a complete loop adds are ordered by their first appearance in the response. */
  lemma {:induction false} IngestFirstAppearanceOrder(d: Dict, items: seq<Item>)
    requires WellFormed(d)
    requires Ingestible(items)
    ensures var o := Ingest(d, items).dict.order;
      forall p, q :: |d.order| <= p < q < |o| ==>
        FirstIndex(Codes(items), o[p]) < FirstIndex(Codes(items), o[q])
    decreases |items|
  {
    if items != [] {
      var e := ToEntry(items[0]).value;
      var d' := Put(d, e.key, e.record);
      var rest := Codes(items[1..]);
      assert Codes(items) == [e.key] + rest;
      PutPreservesWellFormed(d, e.key, e.record);
      IngestFirstAppearanceOrder(d', items[1..]);
      IngestNewKeys(d', items[1..]);
      IngestKeepsEntries(d', items[1..]);
      var o := Ingest(d', items[1..]).dict.order;
      assert e.key in d'.entries;
      assert |d'.order| == |d.order| + 1 ==> o[|d.order|] == d'.order[|d.order|];
      FirstAppearanceShift(o, |d.order|, |d'.order|, e.key, rest);
    }
  }

  /** A key the response carries ends with the same record whatever the dictionary held before. */
  lemma {:induction false} IngestOverwritesAlike(d1: Dict, d2: Dict, items: seq<Item>, k: Key)
    requires Ingestible(items)
    requires k in Codes(items)
    ensures k in Ingest(d1, items).dict.entries && k in Ingest(d2, items).dict.entries
    ensures Ingest(d1, items).dict.entries[k] == Ingest(d2, items).dict.entries[k]
    decreases |items|
  {
    var e := ToEntry(items[0]).value;
    assert Codes(items) == [e.key] + Codes(items[1..]);
    if k in Codes(items[1..]) {
      IngestOverwritesAlike(Put(d1, e.key, e.record), Put(d2, e.key, e.record), items[1..], k);
    } else {
      IngestUntouched(Put(d1, e.key, e.record), items[1..], k);
      IngestUntouched(Put(d2, e.key, e.record), items[1..], k);
    }
  }

  /** A well-formed order that extends another with the same keys adds nothing. */
  lemma SameKeysPrefixIsEqual(a: Dict, b: Dict)
    requires WellFormed(a) && WellFormed(b)
    requires a.order <= b.order
    requires a.entries.Keys == b.entries.Keys
    ensures a.order == b.order
  {
    assert a.entries.Keys == set x | x in a.order;
    assert b.entries.Keys == set x | x in b.order;
    DistinctCardinality(a.order);
    DistinctCardinality(b.order);
  }

  /** A second pass over the same complete response leaves every record as the first pass left it. */
  lemma IngestTwiceSameEntries(d: Dict, items: seq<Item>)
    requires Ingestible(items)
    ensures Ingest(Ingest(d, items).dict, items).dict.entries == Ingest(d, items).dict.entries
  {
    var d1 := Ingest(d, items).dict;
    var d2 := Ingest(d1, items).dict;
    IngestKeys(d, items);
    IngestKeys(d1, items);
    forall k | k in d2.entries ensures k in d1.entries && d2.entries[k] == d1.entries[k] {
      if k in Codes(items) {
        IngestOverwritesAlike(d1, d, items, k);
      } else {
        IngestUntouched(d1, items, k);
      }
    }
  }

  /** Ingesting the same response twice leaves the dictionary, key order included, as ingesting it once. */
  lemma IngestIdempotent(d: Dict, items: seq<Item>)
    requires WellFormed(d)
    requires Ingestible(items)
    ensures Ingest(Ingest(d, items).dict, items) == Ingest(d, items)
  {
    var d1 := Ingest(d, items).dict;
    var d2 := Ingest(d1, items).dict;
    IngestCompletesIff(d, items);
    IngestCompletesIff(d1, items);
    IngestPreservesWellFormed(d, items);
    IngestPreservesWellFormed(d1, items);
    IngestKeepsEntries(d1, items);
    IngestTwiceSameEntries(d, items);
    SameKeysPrefixIsEqual(d1, d2);
  }

  /** A response from the symbol-list endpoint: a transport failure, or a status and a body. */
  datatype Response = TransportError | Response(status: int, body: Body)

  /**
   * The body as `response.json()` sees it: it raises, or yields a value that the
   * loop iterates. An array gives its elements. A top-level object gives its keys
   * and a string its characters, none of which is an object, so such a body is
   * `Parsed` of that many `NonObject`s: `{}` and `""` complete the loop, and a
   * non-empty one raises at its first key or character.
   */
  datatype Body = Unparsable | Parsed(items: seq<Item>)

  /** The two attributes of `StockDataManager`: the dictionary `stocks` and the list `symbols`. */
  datatype CatalogState = CatalogState(dict: Dict, symbols: seq<Key>)

  /** `symbols` lists exactly the keys of `stocks`, in the dictionary's order, each once. */
  predicate Synced(c: CatalogState) {
    WellFormed(c.dict) && c.symbols == c.dict.order
  }

  /** `_fetch_from_api` on a given response. */
  function Fetch(c: CatalogState, resp: Response): CatalogState {
    match resp
    case TransportError => c
    case Response(status, body) =>
      if status != 200 then c
      else match body
        case Unparsable => c
        case Parsed(items) =>
          var ing := Ingest(c.dict, items);
          if ing.completed then CatalogState(ing.dict, ing.dict.order)
          else CatalogState(ing.dict, c.symbols)
  }

  /** The response `_fetch_from_api` ingests: a status 200 whose body parsed. */
  predicate IsOk(resp: Response) {
    resp.Response? && resp.status == 200 && resp.body.Parsed?
  }

  /** A transport failure, a non-200 status or an unparsable body leaves both attributes as they were. */
  lemma FetchFailureChangesNothing(c: CatalogState, resp: Response)
    requires !IsOk(resp)
    ensures Fetch(c, resp) == c
  {
  }

  /**
   * A fetch that goes through every element re-establishes `symbols == list(stocks.keys())`:
   * every listed symbol has a record, every record's key is listed, none twice. The
   * old keys keep their places and every code of the response is a key.
   */
  lemma FetchSyncs(c: CatalogState, resp: Response)
    requires WellFormed(c.dict)
    requires IsOk(resp) && Ingestible(resp.body.items)
    ensures Synced(Fetch(c, resp))
    ensures c.dict.order <= Fetch(c, resp).symbols
    ensures forall k :: k in Fetch(c, resp).dict.entries <==> k in c.dict.entries || k in Codes(resp.body.items)
  {
    var items := resp.body.items;
    IngestCompletesIff(c.dict, items);
    IngestPreservesWellFormed(c.dict, items);
    IngestKeepsEntries(c.dict, items);
    IngestKeys(c.dict, items);
  }

  /** No fetch removes a key or moves one. */
  lemma FetchNeverRemoves(c: CatalogState, resp: Response)
    ensures c.dict.entries.Keys <= Fetch(c, resp).dict.entries.Keys
    ensures c.dict.order <= Fetch(c, resp).dict.order
  {
    if IsOk(resp) {
      IngestKeepsEntries(c.dict, resp.body.items);
    }
  }

  /**
   * When an element makes the loop raise, the entries inserted before it stay in
   * `stocks` but `symbols` keeps its old value.
   */
  lemma FetchPartialFailure(c: CatalogState, resp: Response)
    requires IsOk(resp) && !Ingestible(resp.body.items)
    ensures var n := FailureIndex(resp.body.items);
      && n < |resp.body.items|
      && Fetch(c, resp).symbols == c.symbols
      && Fetch(c, resp).dict == Ingest(c.dict, resp.body.items[..n]).dict
  {
    IngestCompletesIff(c.dict, resp.body.items);
    IngestStopsAtFailure(c.dict, resp.body.items);
  }

  /** An example: one good element followed by a non-object leaves a key that `symbols` does not list. */
  lemma PartialFailureDesyncs()
    ensures var c := CatalogState(Dict(map[], []), []);
      var good := Object(map["Code" := Str("AAPL")]);
      var r := Fetch(c, Response(200, Parsed([good, NonObject])));
      Synced(c) && Str("AAPL") in r.dict.entries && r.symbols == [] && !Synced(r)
  {
    var good := Object(map["Code" := Str("AAPL")]);
    var d1 := Put(Dict(map[], []), Str("AAPL"), RecordOf(good.fields));
    assert Ingest(d1, [NonObject]) == Ingestion(d1, false);
    assert [good, NonObject][1..] == [NonObject];
  }

  /** Fetching the same response twice in a row leaves the state of fetching it once. */
  lemma FetchIdempotent(c: CatalogState, resp: Response)
    requires WellFormed(c.dict)
    ensures Fetch(Fetch(c, resp), resp) == Fetch(c, resp)
  {
    if IsOk(resp) {
      var items := resp.body.items;
      var n := FailureIndex(items);
      var pre := items[..n];
      var c1 := Fetch(c, resp);
      IngestStopsAtFailure(c.dict, items);
      IngestStopsAtFailure(c1.dict, items);
      IngestIdempotent(c.dict, pre);
    }
  }

  /** A response holding one complete record yields a one-symbol catalog whose record carries its name. */
  lemma SingleRecordScenario()
    ensures var apple := map["Code" := Str("AAPL"), "Name" := Str("Apple Inc"), "Country" := Str("USA"),
                             "Exchange" := Str("NASDAQ"), "Currency" := Str("USD"),
                             "Type" := Str("Common Stock"), "Isin" := Str("US0378331005")];
      var r := Fetch(CatalogState(Dict(map[], []), []), Response(200, Parsed([Object(apple)])));
      r.symbols == [Str("AAPL")] && Str("AAPL") in r.dict.entries && r.dict.entries[Str("AAPL")].name == Str("Apple Inc")
  {
    var apple := map["Code" := Str("AAPL"), "Name" := Str("Apple Inc"), "Country" := Str("USA"),
                     "Exchange" := Str("NASDAQ"), "Currency" := Str("USD"),
                     "Type" := Str("Common Stock"), "Isin" := Str("US0378331005")];
    var d1 := Put(Dict(map[], []), Str("AAPL"), RecordOf(apple));
    assert Ingest(d1, []) == Ingestion(d1, true);
  }
}
