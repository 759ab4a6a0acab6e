/** The grid transformer (src/services/GridDataService.ts): one row per
    product key holding a cell per forecast date, and the sorted list of
    distinct dates. A date string is parsed by the `timeOf` parameter. */
module GridData {
  import opened Wrappers
  import opened ProductModel
  import opened SeqUtil

  /** A value of a grid row: one of the three text fields, or a date cell
      `{ MakeToOrder, data }` whose `data` may be null. */
  datatype RowValue = Text(text: string) | Cell(makeToOrder: real, data: Option<ProductData>)

  /** `GridRow`: the fields of a JavaScript object, by name. */
  type GridRow = map<string, RowValue>

  /** `generateProductKey`: the centre, a dash, the reference. */
  function GenerateProductKey(centerCode: string, reference: string): (k: string)
    ensures |k| == |centerCode| + 1 + |reference|
    ensures k[..|centerCode|] == centerCode && k[|centerCode|] == '-' && k[|centerCode| + 1..] == reference
  {
    centerCode + "-" + reference
  }

  function ProductKey(x: ProductData): string
  {
    GenerateProductKey(x.CenterCode, x.Reference)
  }

  /** The key of every record, in input order. */
  function ProductKeys(data: seq<ProductData>): (keys: seq<string>)
    ensures |keys| == |data|
    ensures forall i :: 0 <= i < |data| ==> keys[i] == ProductKey(data[i])
  {
    seq(|data|, i requires 0 <= i < |data| => ProductKey(data[i]))
  }

  lemma ProductKeysOfPrefix(data: seq<ProductData>, n: nat)
    requires n <= |data|
    ensures ProductKeys(data[..n]) == ProductKeys(data)[..n]
  {
  }

  /** The row literal created for the first record of a key. */
  function InitialRow(x: ProductData): GridRow
  {
    map["id" := Text(ProductKey(x)), "CenterCode" := Text(x.CenterCode), "Reference" := Text(x.Reference)]
  }

  /** The cell `{ MakeToOrder: item.MakeToOrder, data: item }`. */
  function DateCell(x: ProductData): RowValue
  {
    Cell(x.MakeToOrder, Some(x))
  }

  /** The row of key `k` in `productMap` once `data` has been processed, or
      None while no record has that key. */
  function RowAfter(data: seq<ProductData>, k: string): (row: Option<GridRow>)
    ensures row.Some? <==> k in ProductKeys(data)
    decreases |data|
  {
    if data == [] then None
    else
      var n := |data| - 1;
      var x := data[n];
      var prev := RowAfter(data[..n], k);
      assert ProductKeys(data) == ProductKeys(data[..n]) + [ProductKey(x)];
      if ProductKey(x) != k then prev
      else Some((if prev.Some? then prev.value else InitialRow(x))[x.VisibleForecastedDate := DateCell(x)])
  }

  /** The product keys in the order `productMap` first receives them. */
  function KeysInOrder(data: seq<ProductData>): seq<string>
  {
    Dedupe(ProductKeys(data))
  }

  /** What `transformToGridRows` returns: the rows of the map in key insertion order. */
  function GridRowsOf(data: seq<ProductData>): (rows: seq<GridRow>)
    ensures |rows| == |KeysInOrder(data)|
  {
    var keys := KeysInOrder(data);
    seq(|keys|, i requires 0 <= i < |keys| => RowAfter(data, keys[i]).value)
  }

  /** The state of `transformToGridRows` once the records `data` have been
      processed: the map holds a row for exactly the keys seen so far, each
      as RowAfter describes it, and the keys were inserted in first-occurrence order. */
  ghost predicate Grouped(data: seq<ProductData>, productMap: map<string, GridRow>, insertionOrder: seq<string>)
  {
    && insertionOrder == KeysInOrder(data)
    && (forall k :: k in productMap <==> k in ProductKeys(data))
    && (forall k :: k in productMap ==> RowAfter(data, k) == Some(productMap[k]))
  }

  /** The map after the loop body has processed record `x`: the key's row
      is created if missing, then the record's date is set on it. */
  function Absorb(productMap: map<string, GridRow>, x: ProductData): (m: map<string, GridRow>)
    ensures m.Keys == productMap.Keys + {ProductKey(x)}
    ensures forall k :: k in productMap && k != ProductKey(x) ==> m[k] == productMap[k]
  {
    var k := ProductKey(x);
    var m := if k in productMap then productMap else productMap[k := InitialRow(x)];
    m[k := m[k][x.VisibleForecastedDate := DateCell(x)]]
  }

  /** Processing one more record, as the loop body does, keeps the state grouped. */
  lemma GroupStep(data: seq<ProductData>, i: nat, productMap: map<string, GridRow>, insertionOrder: seq<string>)
    requires i < |data| && Grouped(data[..i], productMap, insertionOrder)
    ensures var k := ProductKey(data[i]);
            Grouped(data[..i + 1], Absorb(productMap, data[i]),
                    if k in productMap then insertionOrder else insertionOrder + [k])
  {
    OrderStep(data, i, productMap, insertionOrder);
    DomainStep(data, i, productMap);
    RowsStep(data, i, productMap);
  }

  lemma OrderStep(data: seq<ProductData>, i: nat, productMap: map<string, GridRow>, insertionOrder: seq<string>)
    requires i < |data| && insertionOrder == KeysInOrder(data[..i])
    requires forall k :: k in productMap <==> k in ProductKeys(data[..i])
    ensures var k := ProductKey(data[i]);
            (if k in productMap then insertionOrder else insertionOrder + [k]) == KeysInOrder(data[..i + 1])
  {
    KeysInOrderStep(data, i);
  }

  lemma DomainStep(data: seq<ProductData>, i: nat, productMap: map<string, GridRow>)
    requires i < |data|
    requires forall k :: k in productMap <==> k in ProductKeys(data[..i])
    ensures forall k :: k in Absorb(productMap, data[i]) <==> k in ProductKeys(data[..i + 1])
  {
    forall k ensures k in Absorb(productMap, data[i]) <==> k in ProductKeys(data[..i + 1]) {
      KeysOfLongerPrefix(data, i, k);
    }
  }

  lemma RowsStep(data: seq<ProductData>, i: nat, productMap: map<string, GridRow>)
    requires i < |data|
    requires forall k :: k in productMap <==> k in ProductKeys(data[..i])
    requires forall k :: k in productMap ==> RowAfter(data[..i], k) == Some(productMap[k])
    ensures var m := Absorb(productMap, data[i]);
            forall k :: k in m ==> RowAfter(data[..i + 1], k) == Some(m[k])
  {
    var m := Absorb(productMap, data[i]);
    forall k | k in m ensures RowAfter(data[..i + 1], k) == Some(m[k]) {
      RowAfterStep(data, i, k);
    }
  }

  /** The keys of one more record are the old keys and the new record's key. */
  lemma KeysOfLongerPrefix(data: seq<ProductData>, i: nat, k: string)
    requires i < |data|
    ensures k in ProductKeys(data[..i + 1]) <==> k in ProductKeys(data[..i]) || k == ProductKey(data[i])
  {
    assert ProductKeys(data[..i + 1]) == ProductKeys(data[..i]) + [ProductKey(data[i])];
  }

  /** The key order grows by the new record's key when that key is new. */
  lemma KeysInOrderStep(data: seq<ProductData>, i: nat)
    requires i < |data|
    ensures KeysInOrder(data[..i + 1])
         == if ProductKey(data[i]) in ProductKeys(data[..i]) then KeysInOrder(data[..i])
            else KeysInOrder(data[..i]) + [ProductKey(data[i])]
  {
    var keys := ProductKeys(data[..i + 1]);
    assert keys == ProductKeys(data[..i]) + [ProductKey(data[i])];
    assert keys[..|keys| - 1] == ProductKeys(data[..i]);
  }

  /** Processing one more record changes the row of its key only. */
  lemma RowAfterStep(data: seq<ProductData>, i: nat, k: string)
    requires i < |data|
    ensures var x := data[i];
            var prev := RowAfter(data[..i], k);
            RowAfter(data[..i + 1], k)
              == if ProductKey(x) != k then prev
                 else Some((if prev.Some? then prev.value else InitialRow(x))[x.VisibleForecastedDate := DateCell(x)])
  {
    assert data[..i + 1][..i] == data[..i];
  }

  /** `transformToGridRows`: groups the records into rows keyed by centre and
      reference in a map, then lists the map's rows. */
  method TransformToGridRows(data: seq<ProductData>) returns (rows: seq<GridRow>)
    ensures rows == GridRowsOf(data)
  {
    var productMap: map<string, GridRow> := map[];
    var insertionOrder: seq<string> := [];
    for i := 0 to |data|
      invariant Grouped(data[..i], productMap, insertionOrder)
    {
      var item := data[i];
      var productKey := GenerateProductKey(item.CenterCode, item.Reference);
      GroupStep(data, i, productMap, insertionOrder);
      if productKey !in productMap {
        productMap := productMap[productKey := InitialRow(item)];
        insertionOrder := insertionOrder + [productKey];
      }
      var row := productMap[productKey];
      productMap := productMap[productKey := row[item.VisibleForecastedDate := DateCell(item)]];
    }
    assert data[..|data|] == data;
    GroupedRows(data, productMap, insertionOrder);
    rows := seq(|insertionOrder|, j requires 0 <= j < |insertionOrder| => productMap[insertionOrder[j]]);
  }

  /** Once every record is processed, listing the map's rows in insertion
      order gives GridRowsOf. */
  lemma GroupedRows(data: seq<ProductData>, productMap: map<string, GridRow>, insertionOrder: seq<string>)
    requires Grouped(data, productMap, insertionOrder)
    ensures forall k :: k in insertionOrder ==> k in productMap
    ensures seq(|insertionOrder|, j requires 0 <= j < |insertionOrder| && insertionOrder[j] in productMap
                => productMap[insertionOrder[j]]) == GridRowsOf(data)
  {
  }

  /** Rows appear in order of the first record of their key. */
  lemma RowsFollowFirstOccurrence(data: seq<ProductData>, i: int, j: int)
    requires 0 <= i < j < |GridRowsOf(data)|
    ensures FirstIndexOf(ProductKeys(data), KeysInOrder(data)[i]) < FirstIndexOf(ProductKeys(data), KeysInOrder(data)[j])
  {
    DedupeFollowsFirstOccurrence(ProductKeys(data), i, j);
  }

  /** The distinct keys of the input. */
  function KeySet(data: seq<ProductData>): set<string>
  {
    set i | 0 <= i < |data| :: ProductKey(data[i])
  }

  /** The distinct (CenterCode, Reference) pairs of the input. */
  function PairSet(data: seq<ProductData>): set<(string, string)>
  {
    set i | 0 <= i < |data| :: (data[i].CenterCode, data[i].Reference)
  }

  /** One row per distinct key. */
  lemma RowCountIsKeyCount(data: seq<ProductData>)
    ensures |GridRowsOf(data)| == |KeySet(data)|
  {
    var keys := KeysInOrder(data);
    NoDupCard(keys);
    forall k ensures k in keys <==> k in KeySet(data) {
      if k in keys {
        var i :| 0 <= i < |data| && ProductKeys(data)[i] == k;
        assert ProductKey(data[i]) == k;
      }
      if k in KeySet(data) {
        var i :| 0 <= i < |data| && ProductKey(data[i]) == k;
        assert ProductKeys(data)[i] == k;
      }
    }
    assert (set k | k in keys) == KeySet(data);
  }

  function PairKey(p: (string, string)): string
  {
    GenerateProductKey(p.0, p.1)
  }

  /** The keys are the images of the pairs. */
  lemma KeySetIsImageOfPairs(data: seq<ProductData>)
    ensures KeySet(data) == set p | p in PairSet(data) :: PairKey(p)
  {
    forall k | k in KeySet(data) ensures k in (set p | p in PairSet(data) :: PairKey(p)) {
      var i :| 0 <= i < |data| && ProductKey(data[i]) == k;
      assert (data[i].CenterCode, data[i].Reference) in PairSet(data);
    }
  }

  /** Keying a set of pairs yields no more keys than pairs. */
  lemma {:induction false} PairKeyImageCard(pairs: set<(string, string)>)
    ensures |set p | p in pairs :: PairKey(p)| <= |pairs|
    decreases |pairs|
  {
    if pairs != {} {
      var q :| q in pairs;
      var rest := pairs - {q};
      PairKeyImageCard(rest);
      assert (set p | p in pairs :: PairKey(p)) == (set p | p in rest :: PairKey(p)) + {PairKey(q)};
    }
  }

  /** There are no more distinct keys than distinct pairs: colliding pairs share one. */
  lemma KeyCountAtMostPairCount(data: seq<ProductData>)
    ensures |KeySet(data)| <= |PairSet(data)|
  {
    KeySetIsImageOfPairs(data);
    PairKeyImageCard(PairSet(data));
  }

  /** Two different pairs can share a key, and then share a row. */
  lemma CollidingPairsShareRow(x: ProductData, y: ProductData)
    requires x.CenterCode == "A-B" && x.Reference == "C"
    requires y.CenterCode == "A" && y.Reference == "B-C"
    ensures (x.CenterCode, x.Reference) != (y.CenterCode, y.Reference)
    ensures ProductKey(x) == ProductKey(y) == "A-B-C"
    ensures |GridRowsOf([x, y])| == 1
  {
    assert GenerateProductKey("A-B", "C") == "A-B-C";
    assert GenerateProductKey("A", "B-C") == "A-B-C";
    var keys := ProductKeys([x, y]);
    assert keys == ["A-B-C", "A-B-C"];
    assert keys[..1] == ["A-B-C"] && ["A-B-C"][..0] == [];
    assert Dedupe(keys[..1]) == ["A-B-C"];
  }

  /** Keys tell pairs apart when no centre code contains a dash. */
  lemma KeysInjectiveWithoutDash(c1: string, r1: string, c2: string, r2: string)
    requires '-' !in c1 && '-' !in c2
    requires GenerateProductKey(c1, r1) == GenerateProductKey(c2, r2)
    ensures c1 == c2 && r1 == r2
  {
    var k := GenerateProductKey(c1, r1);
    if |c1| < |c2| {
      assert false;
    } else if |c2| < |c1| {
      assert false;
    }
  }

  /** A date that names one of the three text fields overwrites it. */
  lemma ReservedDateOverwritesId(x: ProductData)
    requires x.VisibleForecastedDate == "id"
    ensures GridRowsOf([x])[0]["id"] == DateCell(x)
  {
    assert [x][..0] == [];
    assert ProductKeys([x]) == [ProductKey(x)];
    assert KeysInOrder([x]) == [ProductKey(x)];
  }

  /** No date string collides with a text field of the row. */
  predicate NoReservedDates(data: seq<ProductData>)
  {
    forall i :: 0 <= i < |data| ==> data[i].VisibleForecastedDate !in {"id", "CenterCode", "Reference"}
  }

  /** Without reserved dates, a row's id is its key and its centre and
      reference are those of the first record with that key. */
  lemma {:induction false} RowCarriesKeyAndFirstRecord(data: seq<ProductData>, k: string)
    requires k in ProductKeys(data)
    requires NoReservedDates(data)
    ensures RowHeads(RowAfter(data, k).value, k, data[FirstIndexOf(ProductKeys(data), k)])
    decreases |data|
  {
    var n := |data| - 1;
    var p := data[..n];
    assert ProductKeys(data) == ProductKeys(p) + [ProductKey(data[n])];
    assert data[n].VisibleForecastedDate !in {"id", "CenterCode", "Reference"};
    if k in ProductKeys(p) {
      assert NoReservedDates(p) by {
        forall i | 0 <= i < |p| ensures p[i].VisibleForecastedDate !in {"id", "CenterCode", "Reference"} {
          assert p[i] == data[i];
        }
      }
      RowCarriesKeyAndFirstRecord(p, k);
      FirstRecordOfOldKey(data, k);
      HeadsSurviveLaterRecord(data, n, k, p[FirstIndexOf(ProductKeys(p), k)]);
    } else {
      FirstRecordOfNewKey(data, k);
      HeadsOfNewRow(data, n, k);
    }
  }

  /** The row holds its key as id and the centre and reference of `first`. */
  predicate RowHeads(row: GridRow, k: string, first: ProductData)
  {
    && "id" in row && row["id"] == Text(k)
    && "CenterCode" in row && row["CenterCode"] == Text(first.CenterCode)
    && "Reference" in row && row["Reference"] == Text(first.Reference)
  }

  /** A later record whose date is not a text field keeps a row's text fields. */
  lemma HeadsSurviveLaterRecord(data: seq<ProductData>, n: nat, k: string, first: ProductData)
    requires n == |data| - 1
    requires RowAfter(data[..n], k).Some? && RowHeads(RowAfter(data[..n], k).value, k, first)
    requires data[n].VisibleForecastedDate !in {"id", "CenterCode", "Reference"}
    ensures RowAfter(data, k).Some? && RowHeads(RowAfter(data, k).value, k, first)
  {
    RowAfterStep(data, n, k);
    assert data[..n + 1] == data;
    var x := data[n];
    if ProductKey(x) == k {
      var prev := RowAfter(data[..n], k).value;
      assert RowAfter(data, k).value == prev[x.VisibleForecastedDate := DateCell(x)];
      HeadsKeptByUpdate(prev, k, first, x.VisibleForecastedDate, DateCell(x));
    }
  }

  /** The row literal carries the record's key, centre and reference. */
  lemma InitialRowHeads(x: ProductData)
    ensures RowHeads(InitialRow(x), ProductKey(x), x)
  {
  }

  /** Setting a field other than the three text fields keeps them. */
  lemma HeadsKeptByUpdate(row: GridRow, k: string, first: ProductData, d: string, v: RowValue)
    requires RowHeads(row, k, first)
    requires d !in {"id", "CenterCode", "Reference"}
    ensures RowHeads(row[d := v], k, first)
  {
  }

  /** The row created by the first record of a key carries that record's text fields. */
  lemma HeadsOfNewRow(data: seq<ProductData>, n: nat, k: string)
    requires n == |data| - 1
    requires RowAfter(data[..n], k).None? && ProductKey(data[n]) == k
    requires data[n].VisibleForecastedDate !in {"id", "CenterCode", "Reference"}
    ensures RowAfter(data, k).Some? && RowHeads(RowAfter(data, k).value, k, data[n])
  {
    RowAfterStep(data, n, k);
    assert data[..n + 1] == data;
    var x := data[n];
    assert RowAfter(data, k).value == InitialRow(x)[x.VisibleForecastedDate := DateCell(x)];
    InitialRowHeads(x);
    HeadsKeptByUpdate(InitialRow(x), k, x, x.VisibleForecastedDate, DateCell(x));
  }


  /** A key already present in the prefix keeps its first record. */
  lemma FirstRecordOfOldKey(data: seq<ProductData>, k: string)
    requires data != [] && k in ProductKeys(data[..|data| - 1])
    ensures k in ProductKeys(data)
    ensures data[FirstIndexOf(ProductKeys(data), k)] == data[..|data| - 1][FirstIndexOf(ProductKeys(data[..|data| - 1]), k)]
  {
    var n := |data| - 1;
    ProductKeysOfPrefix(data, n);
    FirstIndexOfPrefix(ProductKeys(data), n, k);
  }

  /** A key first met in the last record has that record as its first. */
  lemma FirstRecordOfNewKey(data: seq<ProductData>, k: string)
    requires data != [] && k in ProductKeys(data) && k !in ProductKeys(data[..|data| - 1])
    ensures FirstIndexOf(ProductKeys(data), k) == |data| - 1
  {
    var n := |data| - 1;
    var keys := ProductKeys(data);
    assert forall m :: 0 <= m < n ==> keys[m] == ProductKeys(data[..n])[m];
  }

  /** The cell at a date holds the last record with that key and date: a
      later record replaces an earlier one. */
  lemma {:induction false} LastRecordWins(data: seq<ProductData>, i: int)
    requires 0 <= i < |data|
    requires forall j :: i < j < |data| ==>
      !(ProductKey(data[j]) == ProductKey(data[i]) && data[j].VisibleForecastedDate == data[i].VisibleForecastedDate)
    ensures var row := RowAfter(data, ProductKey(data[i])).value;
            data[i].VisibleForecastedDate in row && row[data[i].VisibleForecastedDate] == DateCell(data[i])
    decreases |data|
  {
    var n := |data| - 1;
    var p := data[..n];
    if i < n {
      assert p[i] == data[i];
      assert forall j :: i < j < |p| ==> p[j] == data[j];
      LastRecordWins(p, i);
      var k, d := ProductKey(data[i]), data[i].VisibleForecastedDate;
      var prev := RowAfter(p, k);
      assert d in prev.value && prev.value[d] == DateCell(data[i]);
      assert !(ProductKey(data[n]) == k && data[n].VisibleForecastedDate == d);
      LaterRecordKeepsCell(data, n, k, d, prev.value);
    } else {
      assert data[i] == data[|data| - 1];
      LastRecordSetsCell(data);
    }
  }

  /** A record with another key or another date leaves a cell alone. */
  lemma LaterRecordKeepsCell(data: seq<ProductData>, n: nat, k: string, d: string, row: GridRow)
    requires n == |data| - 1
    requires RowAfter(data[..n], k) == Some(row) && d in row
    requires !(ProductKey(data[n]) == k && data[n].VisibleForecastedDate == d)
    ensures var r := RowAfter(data, k); r.Some? && d in r.value && r.value[d] == row[d]
  {
    RowAfterStep(data, n, k);
    assert data[..n + 1] == data;
  }

  /** The last record's cell is set on its key's row. */
  lemma LastRecordSetsCell(data: seq<ProductData>)
    requires data != []
    ensures var x := data[|data| - 1];
            var row := RowAfter(data, ProductKey(x));
            row.Some? && x.VisibleForecastedDate in row.value && row.value[x.VisibleForecastedDate] == DateCell(x)
  {
  }

  /** Every record can be found again: its key has a row, and the row has a
      cell at its date holding a record with the same key and date. */
  lemma {:induction false} EveryRecordIsReachable(data: seq<ProductData>, i: int)
    requires 0 <= i < |data|
    ensures var k := ProductKey(data[i]);
            var d := data[i].VisibleForecastedDate;
            && k in KeysInOrder(data)
            && d in RowAfter(data, k).value
            && RowAfter(data, k).value[d].Cell?
            && RowAfter(data, k).value[d].data.Some?
            && ProductKey(RowAfter(data, k).value[d].data.value) == k
            && RowAfter(data, k).value[d].data.value.VisibleForecastedDate == d
    decreases |data| - i
  {
    var n := |data| - 1;
    var k := ProductKey(data[i]);
    var d := data[i].VisibleForecastedDate;
    assert ProductKeys(data)[i] == k;
    if (exists j :: i < j < |data| && ProductKey(data[j]) == k && data[j].VisibleForecastedDate == d) {
      var j :| i < j < |data| && ProductKey(data[j]) == k && data[j].VisibleForecastedDate == d;
      EveryRecordIsReachable(data, j);
    } else {
      LastRecordWins(data, i);
    }
  }

  /** `new Set(data.map(item => item.VisibleForecastedDate))` as a sequence. */
  function DistinctDates(data: seq<ProductData>): (dates: seq<string>)
    ensures NoDup(dates)
    ensures forall d :: d in dates <==> exists i :: 0 <= i < |data| && data[i].VisibleForecastedDate == d
  {
    var all := seq(|data|, i requires 0 <= i < |data| => data[i].VisibleForecastedDate);
    assert forall d :: d in all <==> exists i :: 0 <= i < |data| && data[i].VisibleForecastedDate == d by {
      forall d ensures d in all ==> exists i :: 0 <= i < |data| && data[i].VisibleForecastedDate == d {
        if d in all { var i :| 0 <= i < |all| && all[i] == d; assert data[i].VisibleForecastedDate == d; }
      }
      forall d ensures (exists i :: 0 <= i < |data| && data[i].VisibleForecastedDate == d) ==> d in all {
        if exists i :: 0 <= i < |data| && data[i].VisibleForecastedDate == d {
          var i :| 0 <= i < |data| && data[i].VisibleForecastedDate == d;
          assert all[i] == d;
        }
      }
    }
    Dedupe(all)
  }

  /** `s` is ordered by time, earliest first. */
  predicate SortedByTime(s: seq<string>, timeOf: string -> int)
  {
    forall i, j :: 0 <= i < j < |s| ==> timeOf(s[i]) <= timeOf(s[j])
  }

  /** Puts `x` into `s` after every element no later than it. */
  function InsertByTime(x: string, s: seq<string>, timeOf: string -> int): (r: seq<string>)
    ensures |r| == |s| + 1
    decreases |s|
  {
    if s == [] then [x]
    else if timeOf(x) < timeOf(s[0]) then [x] + s
    else [s[0]] + InsertByTime(x, s[1..], timeOf)
  }

  /** Inserting adds exactly one occurrence of `x`. */
  lemma {:induction false} InsertAddsOne(x: string, s: seq<string>, timeOf: string -> int)
    ensures multiset(InsertByTime(x, s, timeOf)) == multiset(s) + multiset{x}
    decreases |s|
  {
    if s != [] && timeOf(s[0]) <= timeOf(x) {
      InsertAddsOne(x, s[1..], timeOf);
      assert s == [s[0]] + s[1..];
    }
  }

  /** An element no later than every element of a sorted sequence can go in front of it. */
  lemma ConsKeepsSorted(h: string, s: seq<string>, timeOf: string -> int)
    requires SortedByTime(s, timeOf)
    requires forall y :: y in s ==> timeOf(h) <= timeOf(y)
    ensures SortedByTime([h] + s, timeOf)
  {
    var r := [h] + s;
    forall i, j | 0 <= i < j < |r| ensures timeOf(r[i]) <= timeOf(r[j]) {
      assert r[j] == s[j - 1];
      if i == 0 {
        assert s[j - 1] in s;
      } else {
        assert r[i] == s[i - 1];
      }
    }
  }

  /** Inserting into a sorted sequence keeps it sorted. */
  lemma {:induction false} InsertKeepsSorted(x: string, s: seq<string>, timeOf: string -> int)
    requires SortedByTime(s, timeOf)
    ensures SortedByTime(InsertByTime(x, s, timeOf), timeOf)
    decreases |s|
  {
    if s == [] {
    } else if timeOf(x) < timeOf(s[0]) {
      forall y | y in s ensures timeOf(x) <= timeOf(y) {
        var k :| 0 <= k < |s| && s[k] == y;
      }
      ConsKeepsSorted(x, s, timeOf);
    } else {
      var tail := s[1..];
      assert SortedByTime(tail, timeOf);
      InsertKeepsSorted(x, tail, timeOf);
      var rest := InsertByTime(x, tail, timeOf);
      InsertAddsOne(x, tail, timeOf);
      forall y | y in rest ensures timeOf(s[0]) <= timeOf(y) {
        assert y in multiset(rest);
        if y != x {
          assert y in tail;
          var k :| 0 <= k < |tail| && tail[k] == y;
          assert s[k + 1] == y;
        }
      }
      ConsKeepsSorted(s[0], rest, timeOf);
    }
  }

  /** `Array.prototype.sort` with the comparator `time(a) - time(b)`: a
      stable sort by time (insertion of each element after the sorted
      prefix before it). */
  function SortByTime(s: seq<string>, timeOf: string -> int): (r: seq<string>)
    ensures |r| == |s|
    decreases |s|
  {
    if s == [] then []
    else InsertByTime(s[|s| - 1], SortByTime(s[..|s| - 1], timeOf), timeOf)
  }

  /** The sorted list is non-decreasing by time and a permutation of the input. */
  lemma {:induction false} SortByTimeSorts(s: seq<string>, timeOf: string -> int)
    ensures SortedByTime(SortByTime(s, timeOf), timeOf)
    ensures multiset(SortByTime(s, timeOf)) == multiset(s)
    decreases |s|
  {
    if s != [] {
      var n := |s| - 1;
      SortByTimeSorts(s[..n], timeOf);
      InsertKeepsSorted(s[n], SortByTime(s[..n], timeOf), timeOf);
      InsertAddsOne(s[n], SortByTime(s[..n], timeOf), timeOf);
      assert s == s[..n] + [s[n]];
    }
  }

  /** The elements of `s` whose time is `t`, in order. */
  function AtTime(s: seq<string>, t: int, timeOf: string -> int): seq<string>
    decreases |s|
  {
    if s == [] then [] else (if timeOf(s[0]) == t then [s[0]] else []) + AtTime(s[1..], t, timeOf)
  }

  lemma {:induction false} AtTimeAppend(s: seq<string>, x: string, t: int, timeOf: string -> int)
    ensures AtTime(s + [x], t, timeOf) == AtTime(s, t, timeOf) + (if timeOf(x) == t then [x] else [])
    decreases |s|
  {
    if s != [] {
      assert (s + [x])[1..] == s[1..] + [x];
      AtTimeAppend(s[1..], x, t, timeOf);
    }
  }

  /** The elements of time `t` of a sequence with head `h`. */
  lemma AtTimeCons(h: string, s: seq<string>, t: int, timeOf: string -> int)
    ensures AtTime([h] + s, t, timeOf) == (if timeOf(h) == t then [h] else []) + AtTime(s, t, timeOf)
  {
    assert ([h] + s)[1..] == s;
  }

  /** Inserting puts `x` after the elements of its own time. */
  lemma {:induction false} AtTimeInsert(x: string, s: seq<string>, t: int, timeOf: string -> int)
    requires SortedByTime(s, timeOf)
    ensures AtTime(InsertByTime(x, s, timeOf), t, timeOf) == AtTime(s, t, timeOf) + (if timeOf(x) == t then [x] else [])
    decreases |s|
  {
    if s == [] {
      AtTimeCons(x, [], t, timeOf);
    } else if timeOf(x) < timeOf(s[0]) {
      AtTimeCons(x, s, t, timeOf);
      if timeOf(x) == t {
        AtTimeNone(s, t, timeOf);
      }
    } else {
      var tail := s[1..];
      assert SortedByTime(tail, timeOf);
      AtTimeInsert(x, tail, t, timeOf);
      AtTimeCons(s[0], InsertByTime(x, tail, timeOf), t, timeOf);
      AtTimeCons(s[0], tail, t, timeOf);
      assert s == [s[0]] + tail;
    }
  }

  /** In a sorted sequence that starts later than `t`, nothing has time `t`. */
  lemma {:induction false} AtTimeNone(s: seq<string>, t: int, timeOf: string -> int)
    requires SortedByTime(s, timeOf)
    requires s != [] && t < timeOf(s[0])
    ensures AtTime(s, t, timeOf) == []
    decreases |s|
  {
    if |s| > 1 {
      assert timeOf(s[0]) <= timeOf(s[1]);
      AtTimeNone(s[1..], t, timeOf);
    }
  }

  /** The sort is stable: for every time, the elements of that time keep
      their input order. */
  lemma {:induction false} SortIsStable(s: seq<string>, t: int, timeOf: string -> int)
    ensures AtTime(SortByTime(s, timeOf), t, timeOf) == AtTime(s, t, timeOf)
    decreases |s|
  {
    if s != [] {
      var n := |s| - 1;
      SortIsStable(s[..n], t, timeOf);
      SortByTimeSorts(s[..n], timeOf);
      AtTimeInsert(s[n], SortByTime(s[..n], timeOf), t, timeOf);
      assert s == s[..n] + [s[n]];
      AtTimeAppend(s[..n], s[n], t, timeOf);
    }
  }

  /** `getUniqueDates`. */
  function GetUniqueDates(data: seq<ProductData>, timeOf: string -> int): seq<string>
  {
    SortByTime(DistinctDates(data), timeOf)
  }

  /** The unique dates are duplicate-free, hold exactly the input's dates, and
      are ordered by time; equal-time dates keep first-occurrence order. */
  lemma UniqueDatesSpec(data: seq<ProductData>, timeOf: string -> int, d: string, t: int)
    ensures var u := GetUniqueDates(data, timeOf);
            && NoDup(u)
            && (d in u <==> exists i :: 0 <= i < |data| && data[i].VisibleForecastedDate == d)
            && SortedByTime(u, timeOf)
            && AtTime(u, t, timeOf) == AtTime(DistinctDates(data), t, timeOf)
  {
    var s := DistinctDates(data);
    var u := GetUniqueDates(data, timeOf);
    SortIsStable(s, t, timeOf);
    SortByTimeSorts(s, timeOf);
    assert forall x :: x in u <==> x in s by {
      forall x ensures x in u <==> x in s {
        assert x in multiset(u) <==> x in multiset(s);
      }
    }
    PermutationKeepsNoDup(s, u);
  }

  /** A permutation of a duplicate-free sequence is duplicate-free. */
  lemma PermutationKeepsNoDup(s: seq<string>, u: seq<string>)
    requires NoDup(s) && multiset(u) == multiset(s)
    ensures NoDup(u)
  {
    forall x | x in multiset(s) ensures multiset(s)[x] == 1 {
      NoDupCount(s, x);
    }
    forall i, j | 0 <= i < j < |u| ensures u[i] != u[j] {
      if u[i] == u[j] {
        TwoOccurrences(u, i, j);
        assert false;
      }
    }
  }

  /** Two equal positions make an element occur at least twice. */
  lemma TwoOccurrences(u: seq<string>, i: int, j: int)
    requires 0 <= i < j < |u| && u[i] == u[j]
    ensures multiset(u)[u[i]] >= 2
  {
    assert u == u[..i] + [u[i]] + u[i + 1..j] + [u[j]] + u[j + 1..];
  }

  /** In a duplicate-free sequence each element occurs once. */
  lemma {:induction false} NoDupCount(s: seq<string>, x: string)
    requires NoDup(s) && x in s
    ensures multiset(s)[x] == 1
    decreases |s|
  {
    if s[0] == x {
      assert x !in s[1..];
      assert s == [s[0]] + s[1..];
    } else {
      assert NoDup(s[1..]) by {
        forall i, j | 0 <= i < j < |s[1..]| ensures s[1..][i] != s[1..][j] { assert s[1..][i] == s[i + 1]; }
      }
      NoDupCount(s[1..], x);
      assert s == [s[0]] + s[1..];
    }
  }

  /** When no two different dates of the input parse to the same time, the
      unique dates strictly ascend. */
  lemma UniqueDatesAscend(data: seq<ProductData>, timeOf: string -> int)
    requires forall i, j :: 0 <= i < |data| && 0 <= j < |data|
               && timeOf(data[i].VisibleForecastedDate) == timeOf(data[j].VisibleForecastedDate)
               ==> data[i].VisibleForecastedDate == data[j].VisibleForecastedDate
    ensures var u := GetUniqueDates(data, timeOf);
            forall i, j :: 0 <= i < j < |u| ==> timeOf(u[i]) < timeOf(u[j])
  {
    var u := GetUniqueDates(data, timeOf);
    forall i, j | 0 <= i < j < |u| ensures timeOf(u[i]) < timeOf(u[j]) {
      UniqueDatesSpec(data, timeOf, u[i], 0);
      UniqueDatesSpec(data, timeOf, u[j], 0);
      var a :| 0 <= a < |data| && data[a].VisibleForecastedDate == u[i];
      var b :| 0 <= b < |data| && data[b].VisibleForecastedDate == u[j];
    }
  }
}
