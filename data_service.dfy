/** The JSON loader and its validator (src/services/DataService.ts): the
    format check of `loadData` and the filter, number and keep pipeline of
    `validateData`. The JavaScript coercions are modelled on what they can
    observe of a raw value: whether it is a string, truthy or falsy, and
    what `Number(...)` makes of it. */
module DataService {
  import opened Wrappers
  import opened ProductModel
  import opened SeqUtil
  import Decimal

  /** A raw field as the validator sees it: a falsy value (absent, null, 0,
      false, NaN), a string, or a truthy value that is not a string,
      together with the text a template literal makes of it. */
  datatype RawField = Falsy | StringValue(s: string) | OtherTruthy(shown: string)

  /** One object of the `Datos` array. Numeric fields hold `Number(...)` of
      the raw value, with None for NaN. */
  datatype RawRecord = RawRecord(
    CenterCode: RawField,
    Reference: RawField,
    VisibleForecastedDate: RawField,
    NetFlow: Option<real>,
    GreenZone: Option<real>,
    YellowZone: Option<real>,
    RedZone: Option<real>,
    MakeToOrder: Option<real>)

  /** An entry of `Datos`: an object, or anything else (null, a number, a
      string, a boolean). An array entry passes the object test, so it is an
      `Object` whose fields are all `Falsy` or `None`. */
  datatype RawItem = NonObject | Object(record: RawRecord)

  /** The `Datos` member of the data source. */
  datatype DatosField = Missing | NotAnArray | Items(items: seq<RawItem>)

  /** JavaScript truthiness of a field; the empty string is falsy. */
  predicate Truthy(f: RawField)
  {
    f.OtherTruthy? || (f.StringValue? && f.s != "")
  }

  /** Text of `(x as string) || fallback` inside a template literal. */
  function OrFallbackText(f: RawField, fallback: string): (t: string)
    ensures !Truthy(f) ==> t == fallback
    ensures f.StringValue? && f.s != "" ==> t == f.s
  {
    match f
    case Falsy => fallback
    case StringValue(s) => if s == "" then fallback else s
    case OtherTruthy(shown) => shown
  }

  /** The part of a string after its last dash (all of it when it has none). */
  function AfterLastDash(s: string): string
    decreases |s|
  {
    if s == [] then []
    else if s[|s| - 1] == '-' then []
    else AfterLastDash(s[..|s| - 1]) + [s[|s| - 1]]
  }

  /** A dash followed by dash-free text leaves that text after the last dash. */
  lemma {:induction false} AfterLastDashOfSuffix(p: string, d: string)
    requires '-' !in d
    ensures AfterLastDash(p + "-" + d) == d
    decreases |d|
  {
    var s := p + "-" + d;
    if d == [] {
      assert s[|s| - 1] == '-';
    } else {
      var d' := d[..|d| - 1];
      assert s[..|s| - 1] == p + "-" + d';
      assert s[|s| - 1] == d[|d| - 1];
      assert d[|d| - 1] != '-' by { assert d[|d| - 1] in d; }
      assert '-' !in d' by {
        forall k | 0 <= k < |d'| ensures d'[k] != '-' { assert d'[k] == d[k]; assert d[k] in d; }
      }
      AfterLastDashOfSuffix(p, d');
      assert d == d' + [d[|d| - 1]];
    }
  }

  /** Decimal text has no dash. */
  lemma DigitsHaveNoDash(n: nat)
    ensures '-' !in Decimal.NatToString(n)
  {
    var t := Decimal.NatToString(n);
    forall k | 0 <= k < |t| ensures t[k] != '-' {
      assert Decimal.IsDigit(t[k]);
    }
  }

  /** `generateProductId`: centre code and reference, each 'unknown' when
      falsy, then the index, all joined by dashes. The index is the text
      after the last dash, so it can always be read back. */
  function GenerateProductId(item: RawRecord, index: nat): (id: string)
    ensures AfterLastDash(id) == Decimal.NatToString(index)
    ensures |id| > |Decimal.NatToString(index)|
  {
    var centerCode := OrFallbackText(item.CenterCode, "unknown");
    var reference := OrFallbackText(item.Reference, "unknown");
    DigitsHaveNoDash(index);
    AfterLastDashOfSuffix(centerCode + "-" + reference, Decimal.NatToString(index));
    centerCode + "-" + reference + "-" + Decimal.NatToString(index)
  }

  /** Records built at different indices get different ids. */
  lemma IdsOfDistinctIndicesDiffer(a: RawRecord, i: nat, b: RawRecord, j: nat)
    requires i != j
    ensures GenerateProductId(a, i) != GenerateProductId(b, j)
  {
    if GenerateProductId(a, i) == GenerateProductId(b, j) {
      Decimal.NatToStringInjective(i, j);
    }
  }

  /** The value of a text field after `(x as string) || ''`: still a
      non-string when the raw value was a truthy non-string. */
  datatype FieldText = StringField(s: string) | NonString(shown: string)

  function OrEmpty(f: RawField): (t: FieldText)
    ensures t.StringField? <==> !f.OtherTruthy?
    ensures t.StringField? ==> (t.s != "" <==> Truthy(f))
    ensures f.StringValue? ==> t == StringField(f.s)
  {
    match f
    case Falsy => StringField("")
    case StringValue(s) => StringField(s)
    case OtherTruthy(shown) => NonString(shown)
  }

  /** `Number(x) || 0`: NaN and zero both become 0, anything else is kept,
      so the result is never NaN. */
  function CoerceNumber(n: Option<real>): (v: real)
    ensures n.None? ==> v == 0.0
    ensures n.Some? ==> v == n.value
  {
    if n.None? || n.value == 0.0 then 0.0 else n.value
  }

  /** The object `transformToProductData` builds, before validation. */
  datatype Candidate = Candidate(
    id: string,
    CenterCode: FieldText,
    Reference: FieldText,
    VisibleForecastedDate: FieldText,
    NetFlow: real,
    GreenZone: real,
    YellowZone: real,
    RedZone: real,
    MakeToOrder: real)

  /** `transformToProductData`. */
  function TransformToProductData(item: RawRecord, index: nat): (c: Candidate)
    ensures AfterLastDash(c.id) == Decimal.NatToString(index)
    ensures item.CenterCode.StringValue? ==> c.CenterCode == StringField(item.CenterCode.s)
    ensures item.Reference.StringValue? ==> c.Reference == StringField(item.Reference.s)
    ensures item.VisibleForecastedDate.StringValue? ==> c.VisibleForecastedDate == StringField(item.VisibleForecastedDate.s)
    ensures c.NetFlow == (if item.NetFlow.Some? then item.NetFlow.value else 0.0)
    ensures c.GreenZone == (if item.GreenZone.Some? then item.GreenZone.value else 0.0)
    ensures c.YellowZone == (if item.YellowZone.Some? then item.YellowZone.value else 0.0)
    ensures c.RedZone == (if item.RedZone.Some? then item.RedZone.value else 0.0)
    ensures c.MakeToOrder == (if item.MakeToOrder.Some? then item.MakeToOrder.value else 0.0)
  {
    Candidate(
      GenerateProductId(item, index),
      OrEmpty(item.CenterCode),
      OrEmpty(item.Reference),
      OrEmpty(item.VisibleForecastedDate),
      CoerceNumber(item.NetFlow),
      CoerceNumber(item.GreenZone),
      CoerceNumber(item.YellowZone),
      CoerceNumber(item.RedZone),
      CoerceNumber(item.MakeToOrder))
  }

  predicate IsNonEmptyString(t: FieldText)
  {
    t.StringField? && |t.s| > 0
  }

  /** `isValidProductData`. The numeric checks always hold, because
      coerced numbers are never NaN; no sign is checked. */
  predicate IsValidProductData(c: Candidate)
  {
    IsNonEmptyString(c.CenterCode) && IsNonEmptyString(c.Reference) && IsNonEmptyString(c.VisibleForecastedDate)
  }

  /** A transformed object is valid exactly when its three text fields were
      non-empty strings; its numbers, negative or missing, play no part. */
  lemma ValidIffNonEmptyStrings(item: RawRecord, index: nat)
    ensures IsValidProductData(TransformToProductData(item, index)) <==>
      && item.CenterCode.StringValue? && item.CenterCode.s != ""
      && item.Reference.StringValue? && item.Reference.s != ""
      && item.VisibleForecastedDate.StringValue? && item.VisibleForecastedDate.s != ""
    ensures forall n: Option<real> ::
      IsValidProductData(TransformToProductData(item.(NetFlow := n, MakeToOrder := n, RedZone := n), index))
        == IsValidProductData(TransformToProductData(item, index))
  {
  }

  /** A valid candidate as a record. */
  function ToProduct(c: Candidate): (p: ProductData)
    requires IsValidProductData(c)
    ensures p.id == c.id && p.NetFlow == c.NetFlow && p.MakeToOrder == c.MakeToOrder
    ensures p.CenterCode == c.CenterCode.s && p.Reference == c.Reference.s
    ensures p.VisibleForecastedDate == c.VisibleForecastedDate.s
  {
    ProductData(c.id, c.CenterCode.s, c.Reference.s, c.VisibleForecastedDate.s,
      c.NetFlow, c.GreenZone, c.YellowZone, c.RedZone, c.MakeToOrder)
  }

  /** The first filter: the object entries, in order. */
  function Objects(raw: seq<RawItem>): (objs: seq<RawRecord>)
    ensures |objs| <= |raw|
    ensures forall x :: x in objs <==> Object(x) in raw
    decreases |raw|
  {
    if raw == [] then []
    else
      var prev := Objects(raw[..|raw| - 1]);
      assert forall y :: y in raw <==> y in raw[..|raw| - 1] || y == raw[|raw| - 1];
      if raw[|raw| - 1].Object? then prev + [raw[|raw| - 1].record] else prev
  }

  /** The map step: each object numbered by its position among the objects. */
  function Transformed(objs: seq<RawRecord>): (cs: seq<Candidate>)
    ensures |cs| == |objs|
    ensures forall j :: 0 <= j < |objs| ==> cs[j] == TransformToProductData(objs[j], j)
  {
    seq(|objs|, j requires 0 <= j < |objs| => TransformToProductData(objs[j], j))
  }

  /** The last filter: the valid candidates, in order, as records. */
  function KeepValid(cs: seq<Candidate>): (ps: seq<ProductData>)
    ensures |ps| <= |cs|
    decreases |cs|
  {
    if cs == [] then []
    else
      var prev := KeepValid(cs[..|cs| - 1]);
      var c := cs[|cs| - 1];
      if IsValidProductData(c) then prev + [ToProduct(c)] else prev
  }

  /** Positions of the valid candidates, ascending. */
  function ValidIndices(cs: seq<Candidate>): (ix: seq<nat>)
    ensures forall i :: 0 <= i < |ix| ==> ix[i] < |cs| && IsValidProductData(cs[ix[i]])
    ensures forall i, k :: 0 <= i < k < |ix| ==> ix[i] < ix[k]
    ensures forall j :: 0 <= j < |cs| && IsValidProductData(cs[j]) ==> j in ix
    decreases |cs|
  {
    if cs == [] then []
    else
      var prev := ValidIndices(cs[..|cs| - 1]);
      if IsValidProductData(cs[|cs| - 1]) then prev + [|cs| - 1] else prev
  }

  /** The kept records are the valid candidates in their original order. */
  lemma {:induction false} KeepValidIsValidIndices(cs: seq<Candidate>)
    ensures |KeepValid(cs)| == |ValidIndices(cs)|
    ensures forall i :: 0 <= i < |KeepValid(cs)| ==> KeepValid(cs)[i] == ToProduct(cs[ValidIndices(cs)[i]])
    decreases |cs|
  {
    if cs != [] {
      var n := |cs| - 1;
      var p := cs[..n];
      KeepValidIsValidIndices(p);
      var kept, ix := KeepValid(p), ValidIndices(p);
      var keptAll, ixAll := KeepValid(cs), ValidIndices(cs);
      KeepValidStep(cs);
      forall i | 0 <= i < |keptAll| ensures keptAll[i] == ToProduct(cs[ixAll[i]]) {
        if i < |kept| {
          assert keptAll[i] == kept[i] && ixAll[i] == ix[i];
          assert p[ix[i]] == cs[ix[i]];
        } else {
          assert keptAll[i] == ToProduct(cs[n]) && ixAll[i] == n;
        }
      }
    }
  }

  /** One more candidate adds its record and its index when it is valid. */
  lemma KeepValidStep(cs: seq<Candidate>)
    requires cs != []
    ensures var n := |cs| - 1;
            && KeepValid(cs) == (if IsValidProductData(cs[n]) then KeepValid(cs[..n]) + [ToProduct(cs[n])] else KeepValid(cs[..n]))
            && ValidIndices(cs) == (if IsValidProductData(cs[n]) then ValidIndices(cs[..n]) + [n] else ValidIndices(cs[..n]))
  {
  }

  /** `validateData`. */
  function ValidateData(raw: seq<RawItem>): (ps: seq<ProductData>)
    ensures |ps| <= |raw|
  {
    KeepValid(Transformed(Objects(raw)))
  }

  /** The output, record by record: the i-th kept record is the transform of
      the object at an ascending position among the objects, which is also
      the number in its id. */
  lemma ValidateDataKeepsOrder(raw: seq<RawItem>)
    ensures var objs := Objects(raw);
            var ix := ValidIndices(Transformed(objs));
            && |ValidateData(raw)| == |ix|
            && (forall i :: 0 <= i < |ix| ==>
                  ix[i] < |objs| && ValidateData(raw)[i] == ToProduct(TransformToProductData(objs[ix[i]], ix[i]))
                  && AfterLastDash(ValidateData(raw)[i].id) == Decimal.NatToString(ix[i]))
            && (forall i, k :: 0 <= i < k < |ix| ==> ix[i] < ix[k])
  {
    KeepValidIsValidIndices(Transformed(Objects(raw)));
  }

  /** No two output records share an id. */
  lemma OutputIdsAreDistinct(raw: seq<RawItem>, i: int, k: int)
    requires 0 <= i < k < |ValidateData(raw)|
    ensures ValidateData(raw)[i].id != ValidateData(raw)[k].id
  {
    var objs := Objects(raw);
    var ix := ValidIndices(Transformed(objs));
    ValidateDataKeepsOrder(raw);
    IdsOfDistinctIndicesDiffer(objs[ix[i]], ix[i], objs[ix[k]], ix[k]);
  }

  /** An object is kept exactly when it is valid. */
  lemma KeptIffValid(raw: seq<RawItem>, j: int)
    requires 0 <= j < |Objects(raw)|
    ensures var c := TransformToProductData(Objects(raw)[j], j);
            IsValidProductData(c) <==> exists i :: 0 <= i < |ValidateData(raw)| && ValidateData(raw)[i].id == c.id
  {
    var objs := Objects(raw);
    var cs := Transformed(objs);
    var ix := ValidIndices(cs);
    var c := TransformToProductData(objs[j], j);
    ValidateDataKeepsOrder(raw);
    if IsValidProductData(c) {
      var i :| 0 <= i < |ix| && ix[i] == j;
      assert ValidateData(raw)[i].id == c.id;
    }
    if exists i :: 0 <= i < |ValidateData(raw)| && ValidateData(raw)[i].id == c.id {
      var i :| 0 <= i < |ValidateData(raw)| && ValidateData(raw)[i].id == c.id;
      if ix[i] != j {
        IdsOfDistinctIndicesDiffer(objs[ix[i]], ix[i], objs[j], j);
      }
      assert IsValidProductData(cs[ix[i]]);
    }
  }

  /** Entries that are not objects are dropped before numbering: the first
      object gets index 0 whatever precedes it. */
  lemma NonObjectsAreNotNumbered(rec: RawRecord)
    requires rec.CenterCode == StringValue("C1") && rec.Reference == StringValue("R1")
    requires rec.VisibleForecastedDate == StringValue("2024-01-01")
    ensures ValidateData([NonObject, Object(rec)]) == [ToProduct(TransformToProductData(rec, 0))]
    ensures ValidateData([NonObject, Object(rec)])[0].id == "C1-R1-0"
  {
    ObjectsAfterNonObject(rec);
    var c := TransformToProductData(rec, 0);
    assert Transformed([rec]) == [c];
    assert IsValidProductData(c);
    assert [c][..0] == [];
    assert KeepValid([c]) == [ToProduct(c)];
    IdAtIndexZero(rec);
  }

  lemma ObjectsAfterNonObject(rec: RawRecord)
    ensures Objects([NonObject, Object(rec)]) == [rec]
  {
    var raw := [NonObject, Object(rec)];
    assert [NonObject][..0] == [];
    assert Objects([NonObject]) == [];
    assert raw[..1] == [NonObject];
  }

  lemma IdAtIndexZero(rec: RawRecord)
    requires rec.CenterCode == StringValue("C1") && rec.Reference == StringValue("R1")
    ensures GenerateProductId(rec, 0) == "C1-R1-0"
  {
    assert Decimal.NatToString(0) == "0";
    assert OrFallbackText(rec.CenterCode, "unknown") == "C1";
    assert OrFallbackText(rec.Reference, "unknown") == "R1";
  }

  /** `loadData`: a missing or non-array `Datos` is an error, which the
      catch block replaces by 'Failed to load data'; otherwise the
      validated records. */
  function LoadData(source: DatosField): (r: Result<seq<ProductData>, string>)
    ensures r.Err? <==> !source.Items?
    ensures r.Err? ==> r.error == "Failed to load data"
    ensures r.Ok? ==> r.value == ValidateData(source.items)
  {
    if !source.Items? then Err("Failed to load data") else Ok(ValidateData(source.items))
  }
}
