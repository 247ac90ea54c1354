/**
 * The two computations of `StockReport.plot_stock` that are not drawing calls:
 * where the lowest and highest prices are annotated, and which x-axis ticks are
 * labelled with which date.
 */
module Plotting {
  import opened Common

  /** Python's `min(prices)`: the smallest price. */
  function Min(prices: seq<real>): (m: real)
    requires |prices| > 0
    ensures m in prices
    ensures forall j :: 0 <= j < |prices| ==> m <= prices[j]
  {
    if |prices| == 1 then prices[0]
    else
      var m := Min(prices[..|prices| - 1]);
      if prices[|prices| - 1] < m then prices[|prices| - 1] else m
  }

  /** Python's `max(prices)`: the largest price. */
  function Max(prices: seq<real>): (m: real)
    requires |prices| > 0
    ensures m in prices
    ensures forall j :: 0 <= j < |prices| ==> prices[j] <= m
  {
    if |prices| == 1 then prices[0]
    else
      var m := Max(prices[..|prices| - 1]);
      if prices[|prices| - 1] > m then prices[|prices| - 1] else m
  }

  /** Python's `prices.index(v)`: the first position holding `v`. */
  function IndexOf(prices: seq<real>, v: real): (i: nat)
    requires v in prices
    ensures i < |prices| && prices[i] == v
    ensures forall j :: 0 <= j < i ==> prices[j] != v
  {
    if prices[0] == v then 0 else 1 + IndexOf(prices[1..], v)
  }

  /** The annotated points: lowest and highest price and where each first occurs. */
  datatype Extremes = Extremes(minIndex: nat, minPrice: real, maxIndex: nat, maxPrice: real)

  /** The message of the ValueError that `min` raises on an empty list. */
  const EMPTY_MIN_MESSAGE := "min() arg is an empty sequence"

  /**
   * The min/max step of `plot_stock`. An empty price list raises in `min`;
   * otherwise both indices are valid, the lowest price is at most and the
   * highest at least every price, and each index is the first position of its value.
   */
  function PriceExtremes(prices: seq<real>): (r: Result<Extremes>)
    ensures r.Err? <==> prices == []
    ensures r.Err? ==> r.error == ValueError(EMPTY_MIN_MESSAGE)
    ensures r.Ok? ==> var e := r.value;
      && e.minIndex < |prices| && e.maxIndex < |prices|
      && e.minPrice == prices[e.minIndex] && e.maxPrice == prices[e.maxIndex]
      && (forall j :: 0 <= j < |prices| ==> prices[e.minIndex] <= prices[j] <= prices[e.maxIndex])
      && (forall j :: 0 <= j < e.minIndex ==> prices[j] != prices[e.minIndex])
      && (forall j :: 0 <= j < e.maxIndex ==> prices[j] != prices[e.maxIndex])
  {
    if prices == [] then Err(ValueError(EMPTY_MIN_MESSAGE))
    else
      var lo := Min(prices);
      var hi := Max(prices);
      Ok(Extremes(IndexOf(prices, lo), lo, IndexOf(prices, hi), hi))
  }

  /** The lowest and highest price are the same exactly when every price is equal. */
  lemma ExtremesCoincideIffFlat(prices: seq<real>)
    requires prices != []
    ensures PriceExtremes(prices).Ok?
    ensures var e := PriceExtremes(prices).value;
      e.minPrice == e.maxPrice <==> forall j :: 0 <= j < |prices| ==> prices[j] == prices[0]
  {
    var e := PriceExtremes(prices).value;
    if forall j :: 0 <= j < |prices| ==> prices[j] == prices[0] {
      assert e.minPrice == prices[0] == e.maxPrice;
    }
  }

  /** `range(start, stop, 5)`. */
  function RangeBy5(start: nat, stop: nat): (r: seq<nat>)
    requires start <= stop
    ensures |r| == (stop - start + 4) / 5
    ensures forall k :: 0 <= k < |r| ==> r[k] == start + 5 * k
    decreases stop - start
  {
    if stop - start == 0 then []
    else if stop - start <= 5 then [start]
    else [start] + RangeBy5(start + 5, stop)
  }

  /** `tick_positions = range(0, len(prices), 5)`: 0, 5, 10, ... strictly below the number of prices. */
  function TickPositions(count: nat): (r: seq<nat>)
    ensures |r| == (count + 4) / 5
    ensures forall k :: 0 <= k < |r| ==> r[k] == 5 * k
  {
    RangeBy5(0, count)
  }

  /** The tick positions are exactly the multiples of five below the number of prices. */
  lemma TickPositionsAreMultiplesOf5(count: nat, x: nat)
    ensures x in TickPositions(count) <==> x < count && x % 5 == 0
  {
    var r := TickPositions(count);
    if x < count && x % 5 == 0 {
      assert x / 5 < |r|;
      assert r[x / 5] == x;
    }
  }

  /** `tick_labels`: the date at each tick position that has one, otherwise the empty string. */
  function TickLabels(positions: seq<nat>, dates: seq<string>): seq<string> {
    seq(|positions|, k requires 0 <= k < |positions| =>
      if positions[k] < |dates| then dates[positions[k]] else "")
  }

  /**
   * One label per tick: the k-th is the date of day 5k when the date list reaches
   * that far, and the empty string after its end. With the 30 dates of the chart
   * the first six ticks carry dates.
   */
  lemma TickLabelsOfChart(count: nat, dates: seq<string>)
    ensures var labels := TickLabels(TickPositions(count), dates);
      && |labels| == (count + 4) / 5
      && forall k :: 0 <= k < |labels| ==> labels[k] == if 5 * k < |dates| then dates[5 * k] else ""
    ensures var labels := TickLabels(TickPositions(count), dates);
      |dates| == 30 ==> forall k :: 6 <= k < |labels| ==> labels[k] == ""
  {
  }
}
