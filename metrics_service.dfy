/** Dataset metrics and their cache (src/services/MetricsService.ts). Date
    parsing (`new Date(s).getTime()`) is the parameter `parse`, with None for
    a NaN time. */
module Metrics {
  import opened Wrappers
  import opened ProductModel
  import opened SeqUtil
  import Decimal

  datatype DateRange = DateRange(start: int, end: int)

  /** `IMetrics`. */
  datatype Metrics = Metrics(totalProducts: nat, uniqueCenters: nat, uniqueReferences: nat, dateRange: Option<DateRange>)

  /** A set built from a sequence is no larger than the sequence. */
  lemma SetOfSeqIsNoLarger<T(!new)>(s: seq<T>)
    ensures |set x | x in s| <= |s|
  {
    var d := Dedupe(s);
    NoDupCard(d);
    assert (set x | x in s) == (set x | x in d);
  }

  function Centers(data: seq<ProductData>): (s: seq<string>)
    ensures |s| == |data| && forall i :: 0 <= i < |data| ==> s[i] == data[i].CenterCode
  {
    seq(|data|, i requires 0 <= i < |data| => data[i].CenterCode)
  }

  function References(data: seq<ProductData>): (s: seq<string>)
    ensures |s| == |data| && forall i :: 0 <= i < |data| ==> s[i] == data[i].Reference
  {
    seq(|data|, i requires 0 <= i < |data| => data[i].Reference)
  }

  /** The times that parse, in record order (`map` then `filter(!isNaN)`). */
  function ParsedTimes(data: seq<ProductData>, parse: string -> Option<int>): (ts: seq<int>)
    ensures |ts| <= |data|
    ensures forall t :: t in ts <==> exists i :: 0 <= i < |data| && parse(data[i].VisibleForecastedDate) == Some(t)
    decreases |data|
  {
    if data == [] then []
    else
      var n := |data| - 1;
      var prev := ParsedTimes(data[..n], parse);
      assert forall i :: 0 <= i < n ==> data[..n][i] == data[i];
      var p := parse(data[n].VisibleForecastedDate);
      if p.Some? then prev + [p.value] else prev
  }

  /** `Math.min(...ts)` of a non-empty list. */
  function MinOf(ts: seq<int>): (m: int)
    requires ts != []
    ensures m in ts && forall t :: t in ts ==> m <= t
    decreases |ts|
  {
    if |ts| == 1 then ts[0]
    else
      var rest := MinOf(ts[1..]);
      assert forall t :: t in ts ==> t == ts[0] || t in ts[1..];
      if ts[0] <= rest then ts[0] else rest
  }

  /** `Math.max(...ts)` of a non-empty list. */
  function MaxOf(ts: seq<int>): (m: int)
    requires ts != []
    ensures m in ts && forall t :: t in ts ==> t <= m
    decreases |ts|
  {
    if |ts| == 1 then ts[0]
    else
      var rest := MaxOf(ts[1..]);
      assert forall t :: t in ts ==> t == ts[0] || t in ts[1..];
      if ts[0] >= rest then ts[0] else rest
  }

  /** `MetricsCalculator.calculateMetrics`. */
  function CalculateMetrics(data: seq<ProductData>, parse: string -> Option<int>): (m: Metrics)
    ensures data == [] ==> m == Metrics(0, 0, 0, None)
    ensures m.totalProducts == |data|
  {
    if |data| == 0 then Metrics(0, 0, 0, None)
    else
      var uniqueCenters := set c | c in Centers(data);
      var uniqueReferences := set r | r in References(data);
      var dates := ParsedTimes(data, parse);
      var dateRange := if |dates| > 0 then Some(DateRange(MinOf(dates), MaxOf(dates))) else None;
      Metrics(|data|, |uniqueCenters|, |uniqueReferences|, dateRange)
  }

  /** The distinct counts are the sizes of the sets of centre codes and of
      references, and neither exceeds the number of records. */
  lemma UniqueCountsAreBounded(data: seq<ProductData>, parse: string -> Option<int>)
    ensures var m := CalculateMetrics(data, parse);
            && m.uniqueCenters == |set i | 0 <= i < |data| :: data[i].CenterCode|
            && m.uniqueReferences == |set i | 0 <= i < |data| :: data[i].Reference|
            && m.uniqueCenters <= m.totalProducts && m.uniqueReferences <= m.totalProducts
  {
    var cs, rs := Centers(data), References(data);
    assert (set c | c in cs) == (set i | 0 <= i < |data| :: data[i].CenterCode);
    assert (set r | r in rs) == (set i | 0 <= i < |data| :: data[i].Reference);
    SetOfSeqIsNoLarger(cs);
    SetOfSeqIsNoLarger(rs);
  }

  /** `dateRange` is null exactly when no date parses; otherwise its ends are
      the least and the greatest parsed time. */
  lemma DateRangeIsMinAndMax(data: seq<ProductData>, parse: string -> Option<int>)
    ensures var m := CalculateMetrics(data, parse);
            && (m.dateRange.None? <==> forall i :: 0 <= i < |data| ==> parse(data[i].VisibleForecastedDate).None?)
            && (m.dateRange.Some? ==>
                  var r := m.dateRange.value;
                  && r.start <= r.end
                  && (exists i :: 0 <= i < |data| && parse(data[i].VisibleForecastedDate) == Some(r.start))
                  && (exists i :: 0 <= i < |data| && parse(data[i].VisibleForecastedDate) == Some(r.end))
                  && (forall i :: 0 <= i < |data| && parse(data[i].VisibleForecastedDate).Some? ==>
                        r.start <= parse(data[i].VisibleForecastedDate).value <= r.end))
  {
    var ts := ParsedTimes(data, parse);
    if exists i :: 0 <= i < |data| && parse(data[i].VisibleForecastedDate).Some? {
      var i :| 0 <= i < |data| && parse(data[i].VisibleForecastedDate).Some?;
      assert parse(data[i].VisibleForecastedDate).value in ts;
    }
    if ts != [] {
      assert MinOf(ts) in ts && MaxOf(ts) in ts;
      forall i | 0 <= i < |data| && parse(data[i].VisibleForecastedDate).Some?
        ensures MinOf(ts) <= parse(data[i].VisibleForecastedDate).value <= MaxOf(ts)
      {
        assert parse(data[i].VisibleForecastedDate).value in ts;
      }
    }
  }

  /** The record ids, in order. */
  function Ids(data: seq<ProductData>): (ids: seq<string>)
    ensures |ids| == |data| && forall i :: 0 <= i < |data| ==> ids[i] == data[i].id
  {
    seq(|data|, i requires 0 <= i < |data| => data[i].id)
  }

  /** `Array.prototype.join(',')`. */
  function JoinWithCommas(xs: seq<string>): string
    decreases |xs|
  {
    if xs == [] then ""
    else if |xs| == 1 then xs[0]
    else JoinWithCommas(xs[..|xs| - 1]) + "," + xs[|xs| - 1]
  }

  /** `generateCacheKey`: the record count, a dash, the ids joined by commas. */
  function GenerateCacheKey(data: seq<ProductData>): string
  {
    Decimal.NatToString(|data|) + "-" + JoinWithCommas(Ids(data))
  }

  /** The text before the first dash (all of it when there is none). */
  function BeforeFirstDash(s: string): string
    decreases |s|
  {
    if s == [] || s[0] == '-' then [] else [s[0]] + BeforeFirstDash(s[1..])
  }

  lemma {:induction false} BeforeFirstDashOfPrefix(d: string, rest: string)
    requires forall k :: 0 <= k < |d| ==> Decimal.IsDigit(d[k])
    ensures BeforeFirstDash(d + "-" + rest) == d
    decreases |d|
  {
    if d != [] {
      assert (d + "-" + rest)[1..] == d[1..] + "-" + rest;
      BeforeFirstDashOfPrefix(d[1..], rest);
    }
  }

  /** Two inputs that share a cache key have the same number of records. */
  lemma SharedKeyMeansSameLength(a: seq<ProductData>, b: seq<ProductData>)
    requires GenerateCacheKey(a) == GenerateCacheKey(b)
    ensures |a| == |b|
  {
    BeforeFirstDashOfPrefix(Decimal.NatToString(|a|), JoinWithCommas(Ids(a)));
    BeforeFirstDashOfPrefix(Decimal.NatToString(|b|), JoinWithCommas(Ids(b)));
    Decimal.NatToStringInjective(|a|, |b|);
  }

  /** The key sees only the ids: inputs with the same id sequence share an
      entry, whatever their other fields. */
  lemma SameIdsShareKey(a: seq<ProductData>, b: seq<ProductData>)
    requires |a| == |b| && forall i :: 0 <= i < |a| ==> a[i].id == b[i].id
    ensures GenerateCacheKey(a) == GenerateCacheKey(b)
  {
    assert Ids(a) == Ids(b);
  }

  /** Ids that contain commas can make two different id sequences share a key. */
  lemma CommasInIdsCollide(p: ProductData, q: ProductData, r: ProductData, s: ProductData)
    requires p.id == "a,b" && q.id == "c" && r.id == "a" && s.id == "b,c"
    ensures GenerateCacheKey([p, q]) == GenerateCacheKey([r, s])
    ensures Ids([p, q]) != Ids([r, s])
  {
    assert Ids([p, q]) == ["a,b", "c"];
    assert Ids([r, s]) == ["a", "b,c"];
    assert ["a,b", "c"][..1] == ["a,b"];
    assert ["a", "b,c"][..1] == ["a"];
    assert JoinWithCommas(["a,b", "c"]) == "a,b,c";
    assert JoinWithCommas(["a", "b,c"]) == "a,b,c";
  }

  /** The most entries the cache keeps. */
  const MaxCacheSize: nat := 10

  /** `IMetricsCalculator`. */
  datatype MetricsCalculator = MetricsCalculator(calculateMetrics: seq<ProductData> -> Metrics)

  /** `MetricsService`: a calculator and a cache from keys to metrics. */
  class MetricsService {
    const calculator: MetricsCalculator
    var cache: map<string, Metrics>

    /** The cache never holds more than MaxCacheSize entries. */
    ghost predicate Valid()
      reads this
    {
      |cache| <= MaxCacheSize
    }

    constructor (calculator: MetricsCalculator)
      ensures this.calculator == calculator && cache == map[]
      ensures Valid()
    {
      this.calculator := calculator;
      cache := map[];
    }

    /** `getMetrics`: a hit returns the stored entry and leaves the cache as
        it was; a miss asks the calculator and stores the answer, but an
        insertion that takes the cache past MaxCacheSize empties it, the new
        entry included. */
    method GetMetrics(data: seq<ProductData>) returns (m: Metrics)
      requires Valid()
      modifies this
      ensures Valid()
      ensures var key := GenerateCacheKey(data);
              && (key in old(cache) ==> m == old(cache)[key] && cache == old(cache))
              && (key !in old(cache) ==> m == calculator.calculateMetrics(data))
              && (key !in old(cache) && |old(cache)| < MaxCacheSize ==> cache == old(cache)[key := m])
              && (key !in old(cache) && |old(cache)| == MaxCacheSize ==> cache == map[])
    {
      var cacheKey := GenerateCacheKey(data);
      if cacheKey in cache {
        m := cache[cacheKey];
        return;
      }
      m := calculator.calculateMetrics(data);
      cache := cache[cacheKey := m];
      if |cache| > MaxCacheSize {
        ClearCache();
      }
    }

    /** `clearCache`. */
    method ClearCache()
      modifies this
      ensures cache == map[]
      ensures Valid()
    {
      cache := map[];
    }
  }
}
