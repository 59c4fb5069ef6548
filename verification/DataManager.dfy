/**
 The registry of datasets and its aggregations: per arrondissement over one dataset, over all of
 them, and per group for the two kinds of charts.

 `enumerate` is the order in which the engine visits the properties of an object; nothing is
 known of it but that it visits each property once.
 */
module DataManager {
  import opened JsValues
  import opened Sequences
  import opened Grouping

  /** The `fields` of a record: texts, also in their role as property names, and numbers. */
  datatype Record = Record(texts: map<string, string>, numbers: map<string, real>)

  /** A registered dataset; the formatter makes a code of a field that may be missing. */
  datatype Dataset = Dataset(data: seq<Record>, keyJoinner: string, codeFormatter: Option<string> -> string,
                             valueKey: Option<string>)

  function Text(r: Record, field: string): Option<string> {
    if field in r.texts then Some(r.texts[field]) else None
  }

  /** A record counts 1, or the field that is named as its value; a missing field is undefined. */
  function ValueOf(ds: Dataset, r: Record): Number {
    if ds.valueKey.None? || ds.valueKey.value == "" then Val(1.0)
    else if ds.valueKey.value in r.numbers then Val(r.numbers[ds.valueKey.value])
    else NaN
  }

  // ---------- Codes ----------

  predicate IsDigit(c: char) {
    '0' <= c <= '9'
  }

  /** The value of a run of decimal digits. */
  function Digits(s: string): Option<nat> {
    if s == [] then Some(0)
    else
      var high := Digits(s[..|s| - 1]);
      if high.None? || !IsDigit(s[|s| - 1]) then None
      else Some(10 * high.value + (s[|s| - 1] as int - '0' as int))
  }

  /** The mantissa times the power of ten. */
  function Shifted(mantissa: nat, exponent: nat): nat {
    if exponent == 0 then mantissa else 10 * Shifted(mantissa, exponent - 1)
  }

  /** A numeral with an exponent after position i, such as "751e9", whose value is beyond the last code. */
  predicate ExponentBeyond(code: string, i: nat)
    requires i < |code|
  {
    var mantissa, exponent := Digits(code[..i]), Digits(code[i + 1..]);
    && code[i] in {'e', 'E'} && 0 < i < |code| - 1 && mantissa.Some? && exponent.Some?
    && Shifted(mantissa.value, exponent.value) > 75120
  }

  /**
   `key > 75120`, where the text is read as a number; of a text that is none, NaN, it is false. A code of
   '751' and two more characters is beyond only as plain digits or with an exponent.
   */
  predicate IsBeyond(code: string) {
    if Digits(code).Some? then Digits(code).value > 75120
    else exists i :: 0 <= i < |code| && ExponentBeyond(code, i)
  }

  // ---------- The reducer for postal codes ----------

  /** `s.substring(3, 5)` */
  function FromThreeToFive(s: string): string {
    if |s| < 3 then "" else if |s| < 5 then s[3..] else s[3..5]
  }

  /** `codeReducer`: a missing field is turned into the text "undefined". */
  function CodeReducer(field: Option<string>): string {
    "751" + FromThreeToFive(if field.Some? then field.value else "undefined")
  }

  const KNOWN: seq<string> := [
    "75101", "75102", "75105", "75103", "75104", "75106", "75107", "75108", "75109", "75110",
    "75111", "75112", "75115", "75113", "75114", "75116", "75117", "75118", "75119", "75120"]

  /** The object literal with a zero for each arrondissement. */
  function Zeros(): Dictionary {
    Dictionary(KNOWN, map k | k in KNOWN :: Val(0.0))
  }

  lemma {:induction false} ZerosValid()
    ensures Zeros().Valid()
    ensures forall code :: Zeros().At(code) == Val(0.0)
  {
    forall i, j | 0 <= i < j < |KNOWN|
      ensures KNOWN[i] != KNOWN[j]
    {
      assert KNOWN[i][3] != KNOWN[j][3] || KNOWN[i][4] != KNOWN[j][4];
    }
  }

  // ---------- Items ----------

  function CodeOf(ds: Dataset, r: Record): string {
    ds.codeFormatter(Text(r, ds.keyJoinner))
  }

  // What the sums are of, in terms of the records.

  /** The sum of a field; a record without it makes the sum NaN, and nothing else does. */
  function FieldSum(records: seq<Record>, field: string): (sum: Number)
    ensures sum == NaN <==> exists i :: 0 <= i < |records| && field !in records[i].numbers
  {
    if records == [] then Val(0.0)
    else
      var n := |records| - 1;
      var before := FieldSum(records[..n], field);
      if field in records[n].numbers then Plus(before, Val(records[n].numbers[field]))
      else assert field !in records[n].numbers; NaN
  }

  /**
   The sum of some records: their number when there is no value key or an empty one, and otherwise the sum of
   the field that it names.
   */
  predicate SumsRecords(sum: Number, valueKey: Option<string>, records: seq<Record>) {
    && (valueKey == None || valueKey == Some("") ==> sum == Val(|records| as real))
    && (valueKey.Some? && valueKey.value != "" ==> sum == FieldSum(records, valueKey.value))
  }

  /** The records that are kept, as codes and values. */
  function FormattedItems(ds: Dataset, records: seq<Record>): seq<Item> {
    if records == [] then []
    else
      var r := records[|records| - 1];
      var code := CodeOf(ds, r);
      var items := FormattedItems(ds, records[..|records| - 1]);
      if IsBeyond(code) then items else items + [Item(code, ValueOf(ds, r))]
  }

  function ItemsOf(ds: Dataset): seq<Item> {
    FormattedItems(ds, ds.data)
  }

  /** `fields[groupBy]` as a property name. */
  function GroupName(r: Record, groupBy: string): string {
    if groupBy in r.texts then r.texts[groupBy] else "undefined"
  }

  function ChartItems(ds: Dataset, groupBy: string): seq<Item> {
    seq(|ds.data|, i requires 0 <= i < |ds.data| => Item(GroupName(ds.data[i], groupBy), ValueOf(ds, ds.data[i])))
  }

  /** The rows of an object, visited in the given order of its properties. */
  function Rows(o: Dictionary, order: seq<string>): seq<Item> {
    seq(|order|, i requires 0 <= i < |order| => Item(order[i], o.At(order[i])))
  }

  datatype Column = Column(y: Number, alpha: real)

  datatype Registry = Registry(names: seq<string>, reg: map<string, Dataset>) {
    /** The effect of addDataJson. */
    function Add(name: string, ds: Dataset): Registry {
      Registry(if name in reg then names else names + [name], reg[name := ds])
    }

    ghost predicate Valid() {
      && (forall n :: n in names <==> n in reg)
      && Distinct(names)
    }
  }

  class Manager {
    const enumerate: seq<string> -> seq<string>
    var names: seq<string>
    var dataJsons: map<string, Dataset>

    constructor (enumerate: seq<string> -> seq<string>)
      ensures this.enumerate == enumerate && names == [] && dataJsons == map[]
    {
      this.enumerate := enumerate;
      names, dataJsons := [], map[];
    }

    function State(): Registry
      reads this
    {
      Registry(names, dataJsons)
    }

    ghost predicate Valid()
      reads this
    {
      State().Valid() && VisitsAll(enumerate)
    }

    method AddDataJson(name: string, ds: Dataset)
      requires Valid()
      modifies this
      ensures Valid() && State() == old(State()).Add(name, ds)
    {
      if name !in dataJsons {
        names := names + [name];
      }
      dataJsons := dataJsons[name := ds];
    }

    method GetFormattedData(name: string) returns (rows: seq<Item>)
      requires Valid() && name in dataJsons
      ensures rows == RowsOf(dataJsons[name], enumerate)
    {
      var computedResult := Aggregate(dataJsons[name]);
      rows := CollectRows(computedResult, enumerate);
    }

    method GetFormattedAllData() returns (rows: seq<Item>)
      requires Valid()
      ensures var o := Merged(dataJsons, enumerate, enumerate(names)); rows == Rows(o, enumerate(o.keys))
    {
      var result := Zeros();
      var order := enumerate(names);
      for i := 0 to |order|
        invariant result == Added(Zeros(), AllRows(dataJsons, enumerate, order[..i]))
      {
        NamesVisited(enumerate, names, order[i]);
        AllRowsStep(dataJsons, enumerate, order, i);
        var currentData := GetFormattedData(order[i]);
        AddedConcat(Zeros(), AllRows(dataJsons, enumerate, order[..i]), currentData);
        result := AddRows(result, currentData);
      }
      assert order[..|order|] == order;
      rows := CollectRows(result, enumerate);
    }

    method GetChartFormattedData(name: string, groupBy: string) returns (rows: seq<Item>)
      requires Valid() && name in dataJsons
      ensures var o := ChartGroups(dataJsons[name], groupBy); rows == Rows(o, enumerate(o.keys))
    {
      var computedResult, _ := AggregateChart(dataJsons[name], groupBy);
      rows := CollectRows(computedResult, enumerate);
    }

    /** The columns of the chart: the same rows, with colours that fade from 1 but stay above 0.2. */
    method GetColumnChartFormattedData(name: string, groupBy: string)
      returns (categories: seq<string>, data: seq<Column>)
      requires Valid() && name in dataJsons
      ensures var o := ChartGroups(dataJsons[name], groupBy);
              |categories| == |data| && Zip(categories, data) == Rows(o, enumerate(o.keys))
      ensures forall i :: 0 <= i < |data| ==> data[i].alpha == Fading(|data|, i)
      ensures forall i :: 0 <= i < |data| ==> 0.2 < data[i].alpha <= 1.0 && (i == 0 ==> data[i].alpha == 1.0)
      ensures forall i, j :: 0 <= i < j < |data| ==> data[j].alpha < data[i].alpha
    {
      var computedResult, index := AggregateChart(dataJsons[name], groupBy);
      var order := enumerate(computedResult.keys);
      assert multiset(order) == multiset(computedResult.keys);
      assert |order| == |multiset(order)| == index;
      categories, data := [], [];
      if index > 0 {
        var alpha := 0.80 / index as real;
        for i := 0 to |order|
          invariant |categories| == |data| == i
          invariant Zip(categories, data) == Rows(computedResult, order)[..i]
          invariant forall k :: 0 <= k < i ==> data[k].alpha == Fading(index, k)
        {
          categories := categories + [order[i]];
          data := data + [Column(computedResult.At(order[i]), 1.0 - alpha * i as real)];
        }
        FadingBounds(index);
      }
    }
  }

  /** The loop over the records in getChartFormattedData; `index` counts the new keys. */
  method AggregateChart(json: Dataset, groupBy: string) returns (computedResult: Dictionary, index: nat)
    ensures computedResult == ChartGroups(json, groupBy) && index == |computedResult.keys|
  {
    computedResult, index := Dictionary([], map[]), 0;
    ghost var items := ChartItems(json, groupBy);
    for i := 0 to |json.data|
      invariant computedResult == Grouped(Dictionary([], map[]), items[..i]) && index == |computedResult.keys|
    {
      var it := Item(GroupName(json.data[i], groupBy), ValueOf(json, json.data[i]));
      assert items[..i + 1] == items[..i] + [it];
      if it.key !in computedResult.vals {
        index := index + 1;
      }
      computedResult := Bump(computedResult, it);
    }
    assert items[..|items|] == items;
  }

  function ChartGroups(ds: Dataset, groupBy: string): Dictionary {
    Grouped(Dictionary([], map[]), ChartItems(ds, groupBy))
  }

  /** The groups of a chart are the names that occur, each with the sum of its records. */
  lemma {:induction false} ChartGroupAt(ds: Dataset, groupBy: string, key: string)
    ensures var o := ChartGroups(ds, groupBy);
            && o.Valid() && (key in o.keys <==> HasKey(ChartItems(ds, groupBy), key))
            && (key in o.keys ==> o.vals[key] == GroupSum(ChartItems(ds, groupBy), key))
  {
    var empty, items := Dictionary([], map[]), ChartItems(ds, groupBy);
    GroupedValid(empty, items);
    GroupedKeys(empty, items, key);
    GroupedAt(empty, items, key);
  }

  function Zip(categories: seq<string>, data: seq<Column>): seq<Item>
    requires |categories| == |data|
  {
    seq(|data|, i requires 0 <= i < |data| => Item(categories[i], data[i].y))
  }

  function Fading(n: nat, i: nat): real
    requires n > 0
  {
    1.0 - 0.80 / n as real * i as real
  }

  lemma {:induction false} FadingBounds(n: nat)
    requires n > 0
    ensures forall i :: 0 <= i < n ==> 0.2 < Fading(n, i) <= 1.0
    ensures Fading(n, 0) == 1.0 && Fading(n, n) == 0.2
    ensures forall i :: 0 <= i < n ==> (Fading(n, i) - Fading(n, i + 1)) * n as real == 0.8
    ensures forall i, j :: 0 <= i < j < n ==> Fading(n, j) < Fading(n, i)
  {
    var step := 0.80 / n as real;
    assert step > 0.0 && step * n as real == 0.80;
    forall i, j | 0 <= i < j < n
      ensures Fading(n, j) < Fading(n, i)
    {
      StepGrows(step, i, j);
    }
    forall i | 0 <= i < n
      ensures 0.2 < Fading(n, i) <= 1.0
    {
      StepGrows(step, i, n);
    }
    forall i | 0 <= i < n
      ensures (Fading(n, i) - Fading(n, i + 1)) * n as real == 0.8
    {
      FadingStep(n, i);
    }
  }

  lemma {:induction false} FadingStep(n: nat, i: nat)
    requires n > 0
    ensures (Fading(n, i) - Fading(n, i + 1)) * n as real == 0.8
  {
    var step := 0.80 / n as real;
    NextStep(step, i as real);
    assert (i + 1) as real == i as real + 1.0;
    assert Fading(n, i) - Fading(n, i + 1) == step;
  }

  lemma {:induction false} NextStep(step: real, i: real)
    ensures step * (i + 1.0) == step * i + step
  {
  }

  lemma {:induction false} StepGrows(step: real, i: nat, j: nat)
    requires step > 0.0 && i < j
    ensures 0.0 <= step * i as real < step * j as real
  {
    assert step * j as real - step * i as real == step * (j - i) as real;
  }

  /** The loop over the records in getFormattedData. */
  method Aggregate(json: Dataset) returns (computedResult: Dictionary)
    ensures computedResult == Grouped(Zeros(), ItemsOf(json))
  {
    computedResult := Zeros();
    for i := 0 to |json.data|
      invariant computedResult == Grouped(Zeros(), FormattedItems(json, json.data[..i]))
    {
      FormattedStep(json, json.data, i);
      var key := CodeOf(json, json.data[i]);
      if !IsBeyond(key) {
        computedResult := Bump(computedResult, Item(key, ValueOf(json, json.data[i])));
      }
    }
    assert json.data[..|json.data|] == json.data;
  }

  /** `$.each(computedResult, ...)` */
  method CollectRows(o: Dictionary, enumerate: seq<string> -> seq<string>) returns (rows: seq<Item>)
    ensures rows == Rows(o, enumerate(o.keys))
  {
    var order := enumerate(o.keys);
    rows := [];
    for i := 0 to |order|
      invariant rows == Rows(o, order)[..i]
    {
      rows := rows + [Item(order[i], o.At(order[i]))];
    }
  }

  /** The inner loop of getFormattedAllData. */
  method AddRows(result: Dictionary, rows: seq<Item>) returns (r: Dictionary)
    ensures r == Added(result, rows)
  {
    r := result;
    for k := 0 to |rows|
      invariant r == Added(result, rows[..k])
    {
      assert rows[..k + 1][..k] == rows[..k];
      r := AddTo(r, rows[k]);
    }
    assert rows[..|rows|] == rows;
  }

  lemma {:induction false} FormattedStep(ds: Dataset, records: seq<Record>, i: nat)
    requires i < |records|
    ensures var items, code := FormattedItems(ds, records[..i]), CodeOf(ds, records[i]);
            FormattedItems(ds, records[..i + 1]) ==
            if IsBeyond(code) then items else items + [Item(code, ValueOf(ds, records[i]))]
  {
    assert records[..i + 1][..i] == records[..i];
  }

  ghost predicate VisitsAll(enumerate: seq<string> -> seq<string>) {
    forall keys :: multiset(enumerate(keys)) == multiset(keys)
  }

  lemma {:induction false} NamesVisited(enumerate: seq<string> -> seq<string>, names: seq<string>, name: string)
    requires VisitsAll(enumerate) && name in enumerate(names)
    ensures name in names
  {
    assert name in multiset(enumerate(names));
    assert name in multiset(names);
  }

  /** The rows of one dataset. */
  function RowsOf(ds: Dataset, enumerate: seq<string> -> seq<string>): seq<Item> {
    var o := Grouped(Zeros(), ItemsOf(ds));
    Rows(o, enumerate(o.keys))
  }

  /** The rows of all datasets, one dataset after the other. */
  function AllRows(reg: map<string, Dataset>, enumerate: seq<string> -> seq<string>, names: seq<string>): seq<Item> {
    if names == [] then []
    else
      var init, name := names[..|names| - 1], names[|names| - 1];
      var rows := AllRows(reg, enumerate, init);
      if name in reg then rows + RowsOf(reg[name], enumerate) else rows
  }

  lemma {:induction false} AllRowsStep(reg: map<string, Dataset>, enumerate: seq<string> -> seq<string>,
                                       names: seq<string>, i: nat)
    requires i < |names| && names[i] in reg
    ensures AllRows(reg, enumerate, names[..i + 1])
            == AllRows(reg, enumerate, names[..i]) + RowsOf(reg[names[i]], enumerate)
  {
    assert names[..i + 1][..i] == names[..i];
  }

  // ---------- One pass over everything ----------

  /** The kept records of the named datasets, one dataset after the other. */
  function AllItems(reg: map<string, Dataset>, names: seq<string>): seq<Item> {
    if names == [] then []
    else
      var init, name := names[..|names| - 1], names[|names| - 1];
      var items := AllItems(reg, init);
      if name in reg then items + ItemsOf(reg[name]) else items
  }

  lemma {:induction false} RowsSum(o: Dictionary, order: seq<string>, key: string)
    requires Distinct(order)
    ensures GroupSum(Rows(o, order), key) == if key in order then o.At(key) else Val(0.0)
    ensures HasKey(Rows(o, order), key) <==> key in order
  {
    if order != [] {
      var n := |order| - 1;
      RowsSum(o, order[..n], key);
      assert Rows(o, order)[..n] == Rows(o, order[..n]);
      HasKeyStep(Rows(o, order), key);
      assert key in order <==> key in order[..n] || key == order[n];
    }
  }

  lemma {:induction false} EnumeratedOnce(enumerate: seq<string> -> seq<string>, keys: seq<string>)
    requires VisitsAll(enumerate) && Distinct(keys)
    ensures var order := enumerate(keys);
            Distinct(order) && forall k :: k in order <==> k in keys
  {
    assert multiset(enumerate(keys)) == multiset(keys);
    PermutationDistinct(keys, enumerate(keys));
  }

  /** The rows of a dataset carry the sums of its kept records. */
  lemma {:induction false} RowsOfSum(ds: Dataset, enumerate: seq<string> -> seq<string>, key: string)
    requires VisitsAll(enumerate)
    ensures GroupSum(RowsOf(ds, enumerate), key) == GroupSum(ItemsOf(ds), key)
    ensures HasKey(RowsOf(ds, enumerate), key) <==> key in KNOWN || HasKey(ItemsOf(ds), key)
  {
    var o := Grouped(Zeros(), ItemsOf(ds));
    ZerosValid();
    GroupedValid(Zeros(), ItemsOf(ds));
    GroupedKeys(Zeros(), ItemsOf(ds), key);
    GroupedAt(Zeros(), ItemsOf(ds), key);
    EnumeratedOnce(enumerate, o.keys);
    RowsSum(o, enumerate(o.keys), key);
  }

  lemma {:induction false} AllRowsSum(reg: map<string, Dataset>, enumerate: seq<string> -> seq<string>,
                                      names: seq<string>, key: string)
    requires VisitsAll(enumerate)
    ensures GroupSum(AllRows(reg, enumerate, names), key) == GroupSum(AllItems(reg, names), key)
  {
    if names != [] {
      var init, name := names[..|names| - 1], names[|names| - 1];
      AllRowsSum(reg, enumerate, init, key);
      if name in reg {
        RowsOfSum(reg[name], enumerate, key);
        SumConcat(AllRows(reg, enumerate, init), RowsOf(reg[name], enumerate), ValueFor(key));
        SumConcat(AllItems(reg, init), ItemsOf(reg[name]), ValueFor(key));
      }
    }
  }

  lemma {:induction false} HasKeyConcat(a: seq<Item>, b: seq<Item>, key: string)
    ensures HasKey(a + b, key) <==> HasKey(a, key) || HasKey(b, key)
  {
    forall i | 0 <= i < |a|
      ensures (a + b)[i] == a[i]
    {
    }
    forall i | 0 <= i < |b|
      ensures (a + b)[|a| + i] == b[i]
    {
    }
    if i :| 0 <= i < |a| && a[i].key == key {
      assert (a + b)[i].key == key;
    }
    if i :| 0 <= i < |b| && b[i].key == key {
      assert (a + b)[|a| + i].key == key;
    }
  }

  lemma {:induction false} AllRowsKeys(reg: map<string, Dataset>, enumerate: seq<string> -> seq<string>,
                                       names: seq<string>, key: string)
    requires VisitsAll(enumerate) && key !in KNOWN
    ensures HasKey(AllRows(reg, enumerate, names), key) <==> HasKey(AllItems(reg, names), key)
  {
    if names != [] {
      var init, name := names[..|names| - 1], names[|names| - 1];
      AllRowsKeys(reg, enumerate, init, key);
      if name in reg {
        RowsOfSum(reg[name], enumerate, key);
        HasKeyConcat(AllRows(reg, enumerate, init), RowsOf(reg[name], enumerate), key);
        HasKeyConcat(AllItems(reg, init), ItemsOf(reg[name]), key);
      }
    }
  }

  /** The result of getFormattedAllData for any order in which the datasets are visited. */
  function Merged(reg: map<string, Dataset>, enumerate: seq<string> -> seq<string>, order: seq<string>): Dictionary {
    Added(Zeros(), AllRows(reg, enumerate, order))
  }

  function OnePass(reg: map<string, Dataset>, order: seq<string>): Dictionary {
    Grouped(Zeros(), AllItems(reg, order))
  }

  /**
   Aggregating each dataset and then merging agrees with one grouped pass over all records, for a
   code, if and only if the code is known, or no record has it, or its sum is NaN in any case.
   */
  lemma {:induction false} MergeIsOnePass(reg: map<string, Dataset>, enumerate: seq<string> -> seq<string>,
                                          order: seq<string>, code: string)
    requires VisitsAll(enumerate)
    ensures var items := AllItems(reg, order);
            && OnePass(reg, order).At(code) == GroupSum(items, code)
            && (Merged(reg, enumerate, order).At(code) == OnePass(reg, order).At(code) <==>
                (code in KNOWN || !HasKey(items, code) || GroupSum(items, code) == NaN))
            && var merged := Merged(reg, enumerate, order).At(code);
            merged == NaN || merged == OnePass(reg, order).At(code)
  {
    var items := AllItems(reg, order);
    ZerosValid();
    AddedAt(Zeros(), AllRows(reg, enumerate, order), code);
    GroupedAt(Zeros(), items, code);
    AllRowsSum(reg, enumerate, order, code);
    if code !in KNOWN {
      AllRowsKeys(reg, enumerate, order, code);
      if !HasKey(items, code) {
        NoKeyNoSum(items, code);
      }
    }
  }

  /** A record without the field gets the code "751ef", which counts 1 in one pass and is NaN when merged. */
  lemma {:induction false} UnknownCode(enumerate: seq<string> -> seq<string>)
    requires VisitsAll(enumerate)
    ensures var reg := map["visits" := Dataset([Record(map[], map[])], "cp", CodeReducer, None)];
            && OnePass(reg, ["visits"]).At("751ef") == Val(1.0)
            && Merged(reg, enumerate, ["visits"]).At("751ef") == NaN
  {
    var ds := Dataset([Record(map[], map[])], "cp", CodeReducer, None);
    var reg := map["visits" := ds];
    assert ds.data[..0] == [] && ["visits"][..0] == [];
    assert CodeOf(ds, ds.data[0]) == "751ef" by {
      assert FromThreeToFive("undefined") == "ef";
    }
    assert FormattedItems(ds, ds.data[..0]) == [] && ValueOf(ds, ds.data[0]) == Val(1.0);
    assert ItemsOf(ds) == [Item("751ef", Val(1.0))];
    var items := AllItems(reg, ["visits"]);
    assert items == AllItems(reg, []) + ItemsOf(ds);
    assert items == [Item("751ef", Val(1.0))] && items[0].key == "751ef";
    SumOne(items[0], ValueFor("751ef"));
    NotKnown();
    MergeIsOnePass(reg, enumerate, ["visits"], "751ef");
  }

  lemma {:induction false} NotKnown()
    ensures "751ef" !in KNOWN
  {
    assert forall i :: 0 <= i < |KNOWN| ==> KNOWN[i][4] != 'f';
  }

  // ---------- Totals ----------

  function ItemValue(): Item -> Number {
    (it: Item) => it.value
  }

  function ValueIn(o: Dictionary): string -> Number {
    (k: string) => o.At(k)
  }

  /** A grouped pass keeps the sum of everything. */
  lemma {:induction false} GroupedTotal(base: Dictionary, items: seq<Item>)
    requires base.Valid()
    ensures var o := Grouped(base, items);
            SumOver(o.keys, ValueIn(o)) == Plus(SumOver(base.keys, ValueIn(base)), SumOver(items, ItemValue()))
  {
    if items != [] {
      var init, it := items[..|items| - 1], items[|items| - 1];
      GroupedTotal(base, init);
      GroupedValid(base, init);
      BumpTotal(Grouped(base, init), it);
      PlusAssociates(SumOver(base.keys, ValueIn(base)), SumOver(init, ItemValue()), it.value);
    }
  }

  lemma {:induction false} BumpTotal(o: Dictionary, it: Item)
    requires o.Valid()
    ensures var p := Bump(o, it);
            SumOver(p.keys, ValueIn(p)) == Plus(SumOver(o.keys, ValueIn(o)), it.value)
  {
    var p := Bump(o, it);
    if it.key in o.vals {
      var i :| 0 <= i < |o.keys| && o.keys[i] == it.key;
      var rest := SumChange(o.keys, i, ValueIn(o), ValueIn(p));
      PlusAssociates(rest, o.At(it.key), it.value);
    } else {
      assert forall k :: k in o.keys ==> k != it.key;
      SumAgrees(o.keys, ValueIn(o), ValueIn(p));
      assert p.keys[..|p.keys| - 1] == o.keys;
    }
  }

  /** The rows of a pass that started at zero add up to all values, however the object is visited. */
  lemma {:induction false} RowsOfPassTotal(base: Dictionary, items: seq<Item>, enumerate: seq<string> -> seq<string>)
    requires VisitsAll(enumerate) && base.Valid() && forall k :: k in base.keys ==> base.At(k) == Val(0.0)
    ensures var o := Grouped(base, items);
            SumOver(Rows(o, enumerate(o.keys)), ItemValue()) == SumOver(items, ItemValue())
  {
    var o := Grouped(base, items);
    GroupedTotal(base, items);
    AllZero(base.keys, ValueIn(base));
    assert multiset(enumerate(o.keys)) == multiset(o.keys);
    SumPermutes(enumerate(o.keys), o.keys, ValueIn(o));
    RowsTotal(o, enumerate(o.keys));
  }

  predicate AllIn(items: seq<Item>, keys: map<string, Number>) {
    forall i :: 0 <= i < |items| ==> items[i].key in keys
  }

  lemma {:induction false} NoNewKeys(base: Dictionary, items: seq<Item>)
    requires AllIn(items, base.vals)
    ensures Grouped(base, items).keys == base.keys && Grouped(base, items).vals.Keys == base.vals.Keys
    ensures Added(base, items) == Grouped(base, items)
  {
    if items != [] {
      NoNewKeys(base, items[..|items| - 1]);
      assert items[|items| - 1].key in base.vals;
    }
  }

  /** Two passes over items with equal group sums give the same object. */
  lemma {:induction false} SamePass(base: Dictionary, items: seq<Item>, items': seq<Item>)
    requires base.Valid() && AllIn(items, base.vals) && AllIn(items', base.vals)
    requires forall k :: k in base.vals ==> GroupSum(items, k) == GroupSum(items', k)
    ensures Added(base, items) == Grouped(base, items')
  {
    NoNewKeys(base, items);
    NoNewKeys(base, items');
    forall k | k in base.vals
      ensures Grouped(base, items).vals[k] == Grouped(base, items').vals[k]
    {
      GroupedAt(base, items, k);
      GroupedAt(base, items', k);
    }
  }

  /** All kept records of these datasets have known codes. */
  predicate KnownOnly(reg: map<string, Dataset>, names: seq<string>) {
    AllIn(AllItems(reg, names), Zeros().vals)
  }

  /**
   When every kept record has a known code, the merged result is that of one grouped pass over
   all records, and its rows add up to the sum of all kept values.
   */
  lemma {:induction false} MergedResult(reg: map<string, Dataset>, enumerate: seq<string> -> seq<string>,
                                        order: seq<string>)
    requires VisitsAll(enumerate) && KnownOnly(reg, order)
    ensures Merged(reg, enumerate, order) == OnePass(reg, order)
    ensures var o := Merged(reg, enumerate, order);
            SumOver(Rows(o, enumerate(o.keys)), ItemValue()) == SumOver(AllItems(reg, order), ItemValue())
  {
    var rows, items := AllRows(reg, enumerate, order), AllItems(reg, order);
    ZerosValid();
    forall k | k in Zeros().vals
      ensures GroupSum(rows, k) == GroupSum(items, k)
    {
      AllRowsSum(reg, enumerate, order, k);
    }
    forall i | 0 <= i < |rows|
      ensures rows[i].key in Zeros().vals
    {
      if rows[i].key !in KNOWN {
        assert HasKey(rows, rows[i].key);
        AllRowsKeys(reg, enumerate, order, rows[i].key);
      }
    }
    SamePass(Zeros(), rows, items);
    RowsOfPassTotal(Zeros(), items, enumerate);
  }

  lemma {:induction false} AllZero(s: seq<string>, f: string -> Number)
    requires forall x :: x in s ==> f(x) == Val(0.0)
    ensures SumOver(s, f) == Val(0.0)
  {
    if s != [] {
      AllZero(s[..|s| - 1], f);
    }
  }

  lemma {:induction false} RowsTotal(o: Dictionary, order: seq<string>)
    ensures SumOver(Rows(o, order), ItemValue()) == SumOver(order, ValueIn(o))
  {
    if order != [] {
      var n := |order| - 1;
      assert Rows(o, order)[..n] == Rows(o, order[..n]);
      RowsTotal(o, order[..n]);
    }
  }

  // ---------- Orders and registrations ----------

  function BucketOf(reg: map<string, Dataset>, code: string): string -> Number {
    (n: string) => if n in reg then GroupSum(ItemsOf(reg[n]), code) else Val(0.0)
  }

  lemma {:induction false} AllItemsSum(reg: map<string, Dataset>, names: seq<string>, code: string)
    ensures GroupSum(AllItems(reg, names), code) == SumOver(names, BucketOf(reg, code))
  {
    if names != [] {
      var init, name := names[..|names| - 1], names[|names| - 1];
      AllItemsSum(reg, init, code);
      if name in reg {
        SumConcat(AllItems(reg, init), ItemsOf(reg[name]), ValueFor(code));
      }
    }
  }

  /** Neither the order of the datasets nor that of the records within them matters. */
  lemma {:induction false} OrderDoesNotMatter(reg: map<string, Dataset>, names: seq<string>, names': seq<string>,
                                              items: seq<Item>, code: string)
    requires multiset(names) == multiset(names') && multiset(items) == multiset(AllItems(reg, names))
    ensures GroupSum(items, code) == GroupSum(AllItems(reg, names'), code)
  {
    SumPermutes(items, AllItems(reg, names), ValueFor(code));
    AllItemsSum(reg, names, code);
    AllItemsSum(reg, names', code);
    SumPermutes(names, names', BucketOf(reg, code));
  }

  // ---------- What is counted ----------

  function Select(records: seq<Record>, p: Record -> bool): seq<Record> {
    if records == [] then []
    else
      var n := |records| - 1;
      if p(records[n]) then Select(records[..n], p) + [records[n]] else Select(records[..n], p)
  }

  function ValuesOf(ds: Dataset): Record -> Number {
    (r: Record) => ValueOf(ds, r)
  }

  lemma {:induction false} SelectedSum(records: seq<Record>, p: Record -> bool, f: Record -> Number,
                                       v: Record -> Number)
    requires forall r :: f(r) == if p(r) then v(r) else Val(0.0)
    ensures SumOver(records, f) == SumOver(Select(records, p), v)
  {
    if records != [] {
      var n := |records| - 1;
      SelectedSum(records[..n], p, f, v);
    }
  }

  lemma {:induction false} ValueSums(ds: Dataset, records: seq<Record>)
    ensures SumsRecords(SumOver(records, ValuesOf(ds)), ds.valueKey, records)
  {
    if records != [] {
      ValueSums(ds, records[..|records| - 1]);
    }
  }

  /** The field of the record, through the formatter, gives the code, and that code is kept. */
  function IsKept(ds: Dataset, code: string): Record -> bool {
    (r: Record) =>
      var field := if ds.keyJoinner in r.texts then Some(r.texts[ds.keyJoinner]) else None;
      ds.codeFormatter(field) == code && !IsBeyond(code)
  }

  function KeptRecords(ds: Dataset, code: string): seq<Record> {
    Select(ds.data, IsKept(ds, code))
  }

  /** The bucket of a code counts its kept records, or adds up their value field. */
  lemma {:induction false} BucketCounts(ds: Dataset, code: string)
    ensures SumsRecords(GroupSum(ItemsOf(ds), code), ds.valueKey, KeptRecords(ds, code))
  {
    RecordsSum(ds, ds.data, code);
    SelectedSum(ds.data, IsKept(ds, code), KeptValue(ds, code), ValuesOf(ds));
    ValueSums(ds, KeptRecords(ds, code));
  }

  /** The record has that name in the field, or no such field when the name is "undefined". */
  function IsInGroup(groupBy: string, name: string): Record -> bool {
    (r: Record) =>
      (groupBy in r.texts && r.texts[groupBy] == name) || (groupBy !in r.texts && name == "undefined")
  }

  function GroupRecords(ds: Dataset, groupBy: string, name: string): seq<Record> {
    Select(ds.data, IsInGroup(groupBy, name))
  }

  /** What a record adds to the group of a name. */
  function GroupValue(ds: Dataset, groupBy: string, name: string): Record -> Number {
    (r: Record) => if GroupName(r, groupBy) == name then ValueOf(ds, r) else Val(0.0)
  }

  lemma {:induction false} ChartSum(ds: Dataset, groupBy: string, name: string, n: nat)
    requires n <= |ds.data|
    ensures GroupSum(ChartItems(ds, groupBy)[..n], name) == SumOver(ds.data[..n], GroupValue(ds, groupBy, name))
  {
    if n == 0 {
      assert ChartItems(ds, groupBy)[..0] == [] && ds.data[..0] == [];
    } else {
      ChartSum(ds, groupBy, name, n - 1);
      SumOfPrefix(ChartItems(ds, groupBy), n - 1, ValueFor(name));
      SumOfPrefix(ds.data, n - 1, GroupValue(ds, groupBy, name));
    }
  }

  lemma {:induction false} SelectedSome(records: seq<Record>, p: Record -> bool)
    ensures Select(records, p) != [] <==> exists i :: 0 <= i < |records| && p(records[i])
  {
    if records != [] {
      var n := |records| - 1;
      SelectedSome(records[..n], p);
      assert forall i :: 0 <= i < n ==> records[..n][i] == records[i];
    }
  }

  /** Each group of a chart counts its records, or adds up their value field, and there is no other group. */
  lemma {:induction false} ChartCounts(ds: Dataset, groupBy: string, name: string)
    ensures var o, records := ChartGroups(ds, groupBy), GroupRecords(ds, groupBy, name);
            && (name in o.vals ==> SumsRecords(o.vals[name], ds.valueKey, records))
            && (name in o.vals <==> records != [])
  {
    var items := ChartItems(ds, groupBy);
    assert items[..|ds.data|] == items && ds.data[..|ds.data|] == ds.data;
    ChartGroupAt(ds, groupBy, name);
    ChartSum(ds, groupBy, name, |ds.data|);
    SelectedSum(ds.data, IsInGroup(groupBy, name), GroupValue(ds, groupBy, name), ValuesOf(ds));
    ValueSums(ds, GroupRecords(ds, groupBy, name));
    SelectedSome(ds.data, IsInGroup(groupBy, name));
    forall i | 0 <= i < |ds.data|
      ensures items[i].key == name <==> IsInGroup(groupBy, name)(ds.data[i])
    {
    }
  }

  /** How many records of a dataset are kept with this code. */
  function KeptIn(reg: map<string, Dataset>, code: string): string -> Number {
    (name: string) => if name in reg then Val(|KeptRecords(reg[name], code)| as real) else Val(0.0)
  }

  /** Its records count, rather than add up a field. */
  predicate HasNoKey(reg: map<string, Dataset>, name: string) {
    name in reg ==> reg[name].valueKey == None || reg[name].valueKey == Some("")
  }

  lemma {:induction false} BucketIsCount(reg: map<string, Dataset>, name: string, code: string)
    requires HasNoKey(reg, name)
    ensures BucketOf(reg, code)(name) == KeptIn(reg, code)(name)
  {
    if name in reg {
      BucketCounts(reg[name], code);
    }
  }

  /** The merged value of a known code is the number of its kept records in all datasets, when all count. */
  lemma {:induction false} MergedCounts(reg: map<string, Dataset>, enumerate: seq<string> -> seq<string>,
                                        names: seq<string>, code: string)
    requires VisitsAll(enumerate) && code in KNOWN
    requires forall name :: name in names ==> HasNoKey(reg, name)
    ensures Merged(reg, enumerate, names).At(code) == SumOver(names, KeptIn(reg, code))
  {
    MergedAt(reg, enumerate, names, code);
    AllItemsSum(reg, names, code);
    forall name | name in names
      ensures BucketOf(reg, code)(name) == KeptIn(reg, code)(name)
    {
      BucketIsCount(reg, name, code);
    }
    SumAgrees(names, BucketOf(reg, code), KeptIn(reg, code));
  }

  /** Two digits after "751": the code is kept up to 20, so all known codes are. */
  lemma {:induction false} KeptCodes(c: char, d: char)
    requires IsDigit(c) && IsDigit(d)
    ensures IsBeyond(['7', '5', '1', c, d]) <==> c > '2' || (c == '2' && d > '0')
  {
    var code := ['7', '5', '1', c, d];
    assert code[..1] == ['7'] && code[..2] == ['7', '5'] && code[..3] == ['7', '5', '1'];
    assert Digits(code[..1]) == Some(7) by { assert code[..1][..0] == []; }
    assert Digits(code[..2]) == Some(75) by { assert code[..2][..1] == code[..1]; }
    assert Digits(code[..3]) == Some(751) by { assert code[..3][..2] == code[..2]; }
    assert Digits(code[..4]) == Some(7510 + (c as int - '0' as int)) by { assert code[..4][..3] == code[..3]; }
  }

  /** With two digits, "751" is followed by 01 to 20 in the known codes, and "75100" is the only other one kept. */
  lemma {:induction false} KnownCodes(c: char, d: char)
    requires IsDigit(c) && IsDigit(d)
    ensures var code := ['7', '5', '1', c, d];
            && (code in KNOWN <==> (c == '0' && d > '0') || c == '1' || (c == '2' && d == '0'))
            && (!IsBeyond(code) <==> code in KNOWN || code == "75100")
  {
    KeptCodes(c, d);
    var code, n := ['7', '5', '1', c, d], 10 * (c as int - '0' as int) + (d as int - '0' as int);
    if 1 <= n <= 20 {
      var at := [0, 1, 3, 4, 2, 5, 6, 7, 8, 9, 10, 11, 13, 14, 12, 15, 16, 17, 18, 19];
      assert KNOWN[at[n - 1]] == code;
    } else {
      assert forall i :: 0 <= i < |KNOWN| ==> KNOWN[i][3] != c || KNOWN[i][4] != d;
    }
  }

  /** Of a postal code codeReducer keeps the last two digits, the arrondissement. */
  lemma {:induction false} PostalCode(s: string)
    requires |s| >= 5
    ensures CodeReducer(Some(s)) == ['7', '5', '1', s[3], s[4]]
  {
  }

  // ---------- The order of records, datasets and properties ----------

  /** What a record adds to the group of a code. */
  function KeptValue(ds: Dataset, code: string): Record -> Number {
    (r: Record) => if CodeOf(ds, r) == code && !IsBeyond(code) then ValueOf(ds, r) else Val(0.0)
  }

  lemma {:induction false} RecordsSum(ds: Dataset, records: seq<Record>, code: string)
    ensures GroupSum(FormattedItems(ds, records), code) == SumOver(records, KeptValue(ds, code))
  {
    if records != [] {
      var init, r := records[..|records| - 1], records[|records| - 1];
      RecordsSum(ds, init, code);
      if !IsBeyond(CodeOf(ds, r)) {
        var it := Item(CodeOf(ds, r), ValueOf(ds, r));
        SumConcat(FormattedItems(ds, init), [it], ValueFor(code));
        SumOne(it, ValueFor(code));
      }
    }
  }

  predicate Occurs(ds: Dataset, records: seq<Record>, code: string) {
    !IsBeyond(code) && exists i :: 0 <= i < |records| && CodeOf(ds, records[i]) == code
  }

  lemma {:induction false} RecordsKeys(ds: Dataset, records: seq<Record>, code: string)
    ensures HasKey(FormattedItems(ds, records), code) <==> Occurs(ds, records, code)
  {
    if records != [] {
      var init, r := records[..|records| - 1], records[|records| - 1];
      RecordsKeys(ds, init, code);
      if !IsBeyond(CodeOf(ds, r)) {
        HasKeyStep(FormattedItems(ds, records), code);
      }
    }
  }

  /** Two datasets that differ in the order of their records only. */
  ghost predicate SameRecords(ds: Dataset, ds': Dataset) {
    && ds.keyJoinner == ds'.keyJoinner && ds.codeFormatter == ds'.codeFormatter && ds.valueKey == ds'.valueKey
    && multiset(ds.data) == multiset(ds'.data)
  }

  lemma {:induction false} RecordOrder(ds: Dataset, ds': Dataset, code: string)
    requires SameRecords(ds, ds')
    ensures GroupSum(ItemsOf(ds), code) == GroupSum(ItemsOf(ds'), code)
  {
    RecordsSum(ds, ds.data, code);
    RecordsSum(ds', ds'.data, code);
    SumAgrees(ds'.data, KeptValue(ds, code), KeptValue(ds', code));
    SumPermutes(ds.data, ds'.data, KeptValue(ds, code));
  }

  lemma {:induction false} RecordOrderKeys(ds: Dataset, ds': Dataset, code: string)
    requires SameRecords(ds, ds')
    ensures HasKey(ItemsOf(ds), code) <==> HasKey(ItemsOf(ds'), code)
  {
    RecordsKeys(ds, ds.data, code);
    RecordsKeys(ds', ds'.data, code);
    if Occurs(ds, ds.data, code) {
      OccursAnyOrder(ds, ds', code);
    }
    if Occurs(ds', ds'.data, code) {
      OccursAnyOrder(ds', ds, code);
    }
  }

  lemma {:induction false} OccursAnyOrder(ds: Dataset, ds': Dataset, code: string)
    requires SameRecords(ds, ds') && Occurs(ds, ds.data, code)
    ensures Occurs(ds', ds'.data, code)
  {
    var i :| 0 <= i < |ds.data| && CodeOf(ds, ds.data[i]) == code;
    assert ds.data[i] in multiset(ds.data);
    assert ds.data[i] in multiset(ds'.data);
    var j :| 0 <= j < |ds'.data| && ds'.data[j] == ds.data[i];
  }

  predicate NamedKey(reg: map<string, Dataset>, names: seq<string>, code: string) {
    exists name :: name in names && name in reg && HasKey(ItemsOf(reg[name]), code)
  }

  lemma {:induction false} AllItemsKeys(reg: map<string, Dataset>, names: seq<string>, code: string)
    ensures HasKey(AllItems(reg, names), code) <==> NamedKey(reg, names, code)
  {
    if names != [] {
      var init, last := names[..|names| - 1], names[|names| - 1];
      AllItemsKeys(reg, init, code);
      assert forall name :: name in names <==> name in init || name == last;
      if last in reg {
        HasKeyConcat(AllItems(reg, init), ItemsOf(reg[last]), code);
      }
    }
  }

  /** What the merged object holds for a code, known or not. */
  lemma {:induction false} MergedAt(reg: map<string, Dataset>, enumerate: seq<string> -> seq<string>,
                                    names: seq<string>, code: string)
    requires VisitsAll(enumerate)
    ensures var o, items := Merged(reg, enumerate, names), AllItems(reg, names);
            && o.Valid() && (code in o.vals <==> code in KNOWN || HasKey(items, code))
            && o.At(code) == (if code in KNOWN then GroupSum(items, code)
                              else if HasKey(items, code) then NaN else Val(0.0))
  {
    ZerosValid();
    AddedAt(Zeros(), AllRows(reg, enumerate, names), code);
    AllRowsSum(reg, enumerate, names, code);
    if code !in KNOWN {
      AllRowsKeys(reg, enumerate, names, code);
    }
  }

  lemma {:induction false} NaNAbsorbs<T>(s: seq<T>, f: T -> Number, i: nat)
    requires i < |s| && f(s[i]) == NaN
    ensures SumOver(s, f) == NaN
  {
    if i < |s| - 1 {
      NaNAbsorbs(s[..|s| - 1], f, i);
    }
  }

  /** A code that is not known makes the sum of all rows NaN. */
  lemma {:induction false} UnknownTotal(reg: map<string, Dataset>, enumerate: seq<string> -> seq<string>,
                                        order: seq<string>)
    requires VisitsAll(enumerate) && !KnownOnly(reg, order)
    ensures var o := Merged(reg, enumerate, order);
            SumOver(Rows(o, enumerate(o.keys)), ItemValue()) == NaN
  {
    var o, items := Merged(reg, enumerate, order), AllItems(reg, order);
    var i :| 0 <= i < |items| && items[i].key !in Zeros().vals;
    ZerosValid();
    assert HasKey(items, items[i].key);
    MergedAt(reg, enumerate, order, items[i].key);
    assert multiset(enumerate(o.keys)) == multiset(o.keys);
    assert items[i].key in multiset(enumerate(o.keys));
    var j :| 0 <= j < |enumerate(o.keys)| && enumerate(o.keys)[j] == items[i].key;
    NaNAbsorbs(enumerate(o.keys), ValueIn(o), j);
    RowsTotal(o, enumerate(o.keys));
  }

  /** The rows add up to the sum of all kept values, if and only if all codes are known or that sum is NaN anyway. */
  lemma {:induction false} MergedTotal(reg: map<string, Dataset>, enumerate: seq<string> -> seq<string>,
                                       order: seq<string>)
    requires VisitsAll(enumerate)
    ensures var o, sum := Merged(reg, enumerate, order), SumOver(AllItems(reg, order), ItemValue());
            SumOver(Rows(o, enumerate(o.keys)), ItemValue()) == sum <==> KnownOnly(reg, order) || sum == NaN
  {
    if KnownOnly(reg, order) {
      MergedResult(reg, enumerate, order);
    } else {
      UnknownTotal(reg, enumerate, order);
    }
  }

  /** The same names with the same datasets, up to the order of their records. */
  ghost predicate SameData(reg: map<string, Dataset>, reg': map<string, Dataset>) {
    reg.Keys == reg'.Keys && forall name :: name in reg ==> SameRecords(reg[name], reg'[name])
  }

  lemma {:induction false} AnyOrderAt(reg: map<string, Dataset>, reg': map<string, Dataset>,
                                      names: seq<string>, names': seq<string>, code: string)
    requires SameData(reg, reg') && multiset(names) == multiset(names')
    ensures GroupSum(AllItems(reg, names), code) == GroupSum(AllItems(reg', names'), code)
    ensures HasKey(AllItems(reg, names), code) <==> HasKey(AllItems(reg', names'), code)
  {
    forall name | name in reg
      ensures GroupSum(ItemsOf(reg[name]), code) == GroupSum(ItemsOf(reg'[name]), code)
      ensures HasKey(ItemsOf(reg[name]), code) <==> HasKey(ItemsOf(reg'[name]), code)
    {
      RecordOrder(reg[name], reg'[name], code);
      RecordOrderKeys(reg[name], reg'[name], code);
    }
    AllItemsSum(reg, names, code);
    AllItemsSum(reg', names', code);
    SumAgrees(names', BucketOf(reg, code), BucketOf(reg', code));
    SumPermutes(names, names', BucketOf(reg, code));
    AllItemsKeys(reg, names, code);
    AllItemsKeys(reg', names', code);
    SameMembers(names, names');
  }

  lemma {:induction false} SameMembers(names: seq<string>, names': seq<string>)
    requires multiset(names) == multiset(names')
    ensures forall name :: name in names <==> name in names'
  {
    forall name: string
      ensures name in names <==> name in names'
    {
      assert name in names <==> name in multiset(names);
      assert name in names' <==> name in multiset(names');
    }
  }

  /**
   The merged values, those of unknown codes included, are the same in whatever order records, datasets and
   properties are visited.
   */
  lemma {:induction false} MergedAnyOrder(reg: map<string, Dataset>, reg': map<string, Dataset>,
                                          enumerate: seq<string> -> seq<string>, enumerate': seq<string> -> seq<string>,
                                          names: seq<string>, names': seq<string>)
    requires VisitsAll(enumerate) && VisitsAll(enumerate')
    requires SameData(reg, reg') && multiset(names) == multiset(names')
    ensures Merged(reg, enumerate, names).vals == Merged(reg', enumerate', names').vals
  {
    var o, o' := Merged(reg, enumerate, names), Merged(reg', enumerate', names');
    forall code: string
      ensures code in o.vals <==> code in o'.vals
      ensures o.At(code) == o'.At(code)
    {
      MergedAt(reg, enumerate, names, code);
      MergedAt(reg', enumerate', names', code);
      AnyOrderAt(reg, reg', names, names', code);
    }
    assert forall code :: code in o.vals ==> o.vals[code] == o.At(code) == o'.At(code) == o'.vals[code];
  }

  lemma {:induction false} AddedGrows(base: Dictionary, items: seq<Item>)
    ensures base.keys <= Added(base, items).keys
  {
    if items != [] {
      AddedGrows(base, items[..|items| - 1]);
    }
  }

  lemma {:induction false} NewElement(a: seq<string>, b: seq<string>)
    requires a <= b && Distinct(b)
    ensures |b| > |a| ==> b[|a|] in b && b[|a|] !in a
  {
    assert forall i :: 0 <= i < |a| ==> a[i] == b[i];
  }

  /** With known codes only, the properties of the merged object also keep their order. */
  lemma {:induction false} KnownKeys(reg: map<string, Dataset>, enumerate: seq<string> -> seq<string>,
                                     names: seq<string>)
    requires VisitsAll(enumerate) && Merged(reg, enumerate, names).vals.Keys == Zeros().vals.Keys
    ensures Merged(reg, enumerate, names).keys == KNOWN
  {
    ZerosValid();
    MergedAt(reg, enumerate, names, "");
    AddedGrows(Zeros(), AllRows(reg, enumerate, names));
    NewElement(KNOWN, Merged(reg, enumerate, names).keys);
  }

  lemma {:induction false} MergedRowsAnyOrder(reg: map<string, Dataset>, reg': map<string, Dataset>,
                                              enumerate: seq<string> -> seq<string>,
                                                  enumerate': seq<string> -> seq<string>,
                                              names: seq<string>, names': seq<string>)
    requires VisitsAll(enumerate) && VisitsAll(enumerate') && KnownOnly(reg, names)
    requires SameData(reg, reg') && multiset(names) == multiset(names')
    ensures Merged(reg, enumerate, names) == Merged(reg', enumerate', names')
  {
    MergedAnyOrder(reg, reg', enumerate, enumerate', names, names');
    forall code: string
      ensures code in Merged(reg, enumerate, names).vals <==> code in Zeros().vals
    {
      MergedAt(reg, enumerate, names, code);
    }
    KnownKeys(reg, enumerate, names);
    KnownKeys(reg', enumerate', names');
  }

  lemma {:induction false} ReplaceSum(r: Registry, name: string, ds: Dataset, code: string)
    requires r.Valid()
    ensures var s := r.Add(name, ds);
            Plus(SumOver(s.names, BucketOf(s.reg, code)), BucketOf(r.reg, code)(name)) ==
            Plus(SumOver(r.names, BucketOf(r.reg, code)), BucketOf(s.reg, code)(name))
  {
    var f, g := BucketOf(r.reg, code), BucketOf(r.Add(name, ds).reg, code);
    if name in r.reg {
      var i :| 0 <= i < |r.names| && r.names[i] == name;
      SumExchange(r.names, i, f, g);
    } else {
      SumAppend(r.names, name, f, g);
    }
  }

  /** Registering a name again changes each bucket by exactly the new minus the old dataset. */
  lemma {:induction false} ReplaceBucket(r: Registry, name: string, ds: Dataset, code: string)
    requires r.Valid()
    ensures var s := r.Add(name, ds);
            Plus(GroupSum(AllItems(s.reg, s.names), code), BucketOf(r.reg, code)(name)) ==
            Plus(GroupSum(AllItems(r.reg, r.names), code), GroupSum(ItemsOf(ds), code))
  {
    AllItemsSum(r.reg, r.names, code);
    AllItemsSum(r.Add(name, ds).reg, r.Add(name, ds).names, code);
    ReplaceSum(r, name, ds, code);
  }

  datatype Call = Call(name: string, ds: Dataset)

  function Registered(calls: seq<Call>): Registry {
    if calls == [] then Registry([], map[])
    else Registered(calls[..|calls| - 1]).Add(calls[|calls| - 1].name, calls[|calls| - 1].ds)
  }

  lemma {:induction false} RegisteredValid(calls: seq<Call>)
    ensures Registered(calls).Valid()
  {
    if calls != [] {
      RegisteredValid(calls[..|calls| - 1]);
    }
  }

  /** The last registration of a name in a sequence of calls. */
  function LastCall(calls: seq<Call>, name: string): Option<nat> {
    if calls == [] then None
    else if calls[|calls| - 1].name == name then Some(|calls| - 1)
    else LastCall(calls[..|calls| - 1], name)
  }

  lemma {:induction false} RegisteredLast(calls: seq<Call>, name: string)
    ensures var last := LastCall(calls, name);
            && (last.Some? ==> last.value < |calls| && name in Registered(calls).reg
                               && Registered(calls).reg[name] == calls[last.value].ds)
            && (last.None? ==> name !in Registered(calls).reg)
  {
    if calls != [] {
      RegisteredLast(calls[..|calls| - 1], name);
    }
  }

  /** Two sequences of calls with the same last dataset for every name. */
  ghost predicate SameLast(calls: seq<Call>, calls': seq<Call>) {
    forall name ::
      var last, last' := LastCall(calls, name), LastCall(calls', name);
      if last.Some? && last.value < |calls| then
        last'.Some? && last'.value < |calls'| && calls'[last'.value].ds == calls[last.value].ds
      else last'.None?
  }

  lemma {:induction false} SameRegistry(calls: seq<Call>, calls': seq<Call>)
    requires SameLast(calls, calls')
    ensures Registered(calls).reg == Registered(calls').reg
    ensures multiset(Registered(calls).names) == multiset(Registered(calls').names)
  {
    var r, r' := Registered(calls), Registered(calls');
    RegisteredValid(calls);
    RegisteredValid(calls');
    forall name: string
      ensures name in r.reg <==> name in r'.reg
      ensures name in r.reg ==> r.reg[name] == r'.reg[name]
    {
      RegisteredLast(calls, name);
      RegisteredLast(calls', name);
    }
    assert r.reg == r'.reg;
    SameNames(r.names, r'.names);
  }

  /**
   The sums depend only on the last registration of each name: nothing is counted twice, and
   earlier datasets and the order of the calls leave no trace.
   */
  lemma {:induction false} OnlyLastCounts(calls: seq<Call>, calls': seq<Call>, code: string)
    requires SameLast(calls, calls')
    ensures var r, r' := Registered(calls), Registered(calls');
            GroupSum(AllItems(r.reg, r.names), code) == GroupSum(AllItems(r'.reg, r'.names), code)
  {
    var r, r' := Registered(calls), Registered(calls');
    SameRegistry(calls, calls');
    AllItemsSum(r.reg, r.names, code);
    AllItemsSum(r.reg, r'.names, code);
    SumPermutes(r.names, r'.names, BucketOf(r.reg, code));
  }

  /** So do the merged values of getFormattedAllData, known codes or not, whatever the order of properties. */
  lemma {:induction false} OnlyLastMerged(calls: seq<Call>, calls': seq<Call>,
                                          enumerate: seq<string> -> seq<string>, enumerate': seq<string> -> seq<string>)
    requires SameLast(calls, calls') && VisitsAll(enumerate) && VisitsAll(enumerate')
    ensures var r, r' := Registered(calls), Registered(calls');
            Merged(r.reg, enumerate, enumerate(r.names)).vals == Merged(r'.reg, enumerate', enumerate'(r'.names)).vals
  {
    var r, r' := Registered(calls), Registered(calls');
    SameRegistry(calls, calls');
    assert multiset(enumerate(r.names)) == multiset(r.names);
    assert multiset(enumerate'(r'.names)) == multiset(r'.names);
    MergedAnyOrder(r.reg, r'.reg, enumerate, enumerate', enumerate(r.names), enumerate'(r'.names));
  }

  lemma {:induction false} SameNames(a: seq<string>, b: seq<string>)
    requires Distinct(a) && Distinct(b)
    requires forall n :: n in a <==> n in b
    ensures multiset(a) == multiset(b)
  {
    forall n: string
      ensures multiset(a)[n] == multiset(b)[n]
    {
      OnceInMultiset(a, n);
      OnceInMultiset(b, n);
      assert n in multiset(a) <==> n in a;
      assert n in multiset(b) <==> n in b;
    }
  }
}
