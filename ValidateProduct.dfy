/** Product validation: a six-row rule table interpreted against each product,
    the lb-to-kg rewrite of each stored weight, and three caps on the totals. */
module ValidateProduct {
  import opened Php
  import opened Validate

  // ---------------------------------------------------------------------------
  // The rule table

  /** The product table; only the HS code's required flag varies. */
  function ProductFields(hsRequired: bool): seq<FieldRule> {
    [
      FieldRule("Description", "name", true, StringKind(ProductDescMaxLength)),
      FieldRule("Quantity", "quantity", true, IntKind(1, MaxProductCount)),
      FieldRule("Weight", "weight", true, NumberKind(0.0, MaxShipmentWeight)),
      FieldRule("Value", "value", false, NumberKind(0.0, MaxValue)),
      FieldRule("HsCode", "hs_code", hsRequired, StringKind(255)),
      FieldRule("OriginCountry", "origin_country", false, StringKind(2))
    ]
  }

  /** The HS code is required for a cross-border shipment. */
  predicate HsCodeRequired(consignorCountry: string, consigneeCountry: string) {
    consigneeCountry != consignorCountry
  }

  /** The rows' keys, input names and required flags; the HS code row is
      required exactly when asked to be. */
  lemma ProductFieldsShape(hsRequired: bool)
    ensures var f := ProductFields(hsRequired);
      |f| == 6 &&
      f[0].key == "Description" && f[1].key == "Quantity" && f[2].key == "Weight" &&
      f[3].key == "Value" && f[4].key == "HsCode" && f[5].key == "OriginCountry" &&
      f[1].name == "quantity" && f[2].name == "weight" && f[3].name == "value" && f[4].name == "hs_code" &&
      f[0].required && f[1].required && f[2].required && !f[3].required && !f[5].required &&
      (f[4].required <==> hsRequired) &&
      f[1].kind == IntKind(1, MaxProductCount) && f[2].kind.NumberKind? && f[3].kind.NumberKind?
  {
  }

  /** No two product rows share a key. */
  lemma ProductKeysDistinct(hsRequired: bool)
    ensures DistinctKeys(ProductFields(hsRequired))
  {
    var f := ProductFields(hsRequired);
    forall i, j | 0 <= i < j < |f|
      ensures f[i].key != f[j].key
    {
      var ks := ["Description", "Quantity", "Weight", "Value", "HsCode", "OriginCountry"];
      assert f[i].key == ks[i] && f[j].key == ks[j];
    }
  }

  // ---------------------------------------------------------------------------
  // One field

  /** `$valueLength > $maxLength && $maxLength > 0` with `$maxLength` the
      service limit for the key, taken as it is (numeric or not), else the
      row's default. */
  predicate ProductTooLong(info: ServiceInfo, key: string, default: nat, len: nat) {
    if key in info.fieldLimits then
      match info.fieldLimits[key]
      case Num(n) => ExceedsLength(len, n)
      case NonNumeric(t) => IntGreaterThanText(len, t) && TextGreaterThanInt(t, 0)
    else ExceedsLength(len, default)
  }

  /** The origin-country step accepts a two-byte code whose upper-cased form is
      supported (when the supported list is an array). */
  predicate OriginAccepted(text: string, info: ServiceInfo) {
    ByteLength(text) == 2 &&
    match AvailableCountries(info)
    case None => true
    case Some(list) => Upper(text) in list
  }

  /** What a row stores for a non-empty accepted text: the text (upper-cased for
      the origin country), the filtered integer, or the float value. */
  function StoredValue(rule: FieldRule, text: string): Value {
    match rule.kind
    case StringKind(_) => Str(if rule.key == "OriginCountry" then Upper(text) else text)
    case IntKind(_, _) => Int(if FilterInt(text).Some? then FilterInt(text).value else 0)
    case NumberKind(_, _) => Float(if IsNumeric(text) then NumericValue(text) else 0.0)
  }

  /** Every check the product loop makes on one row, as one conjunction. Number
      rows are checked for being numeric and nothing else. */
  predicate ProductFieldAccepted(rule: FieldRule, text: string, info: ServiceInfo) {
    (rule.required ==> text != "") &&
    (text != "" ==>
      match rule.kind
      case StringKind(d) =>
        !ProductTooLong(info, rule.key, d, |text|) &&
        (rule.key == "OriginCountry" ==> OriginAccepted(text, info))
      case IntKind(lo, hi) =>
        FilterInt(text).Some? && FilterInt(text).value != 0 && lo <= FilterInt(text).value <= hi
      case NumberKind(_, _) => IsNumeric(text))
  }

  /** The origin-country step on an accepted string value. */
  function CheckOrigin(rule: FieldRule, value: string, info: ServiceInfo, index: nat): Result<Option<Value>> {
    if rule.key != "OriginCountry" then Ok(Some(Str(value)))
    else if ByteLength(value) != 2 then Err(Failure(InvalidCountryFormat, rule.name, ProductItem(index)))
    else
      var upper := Upper(value);
      match AvailableCountries(info)
      case None => Ok(Some(Str(upper)))
      case Some(list) =>
        match ValidateCountryCode(upper, list, rule.name)
        case Ok(_) => Ok(Some(Str(upper)))
        case Err(f) => Err(f)
  }

  /** One iteration of the validateProduct loop: the failure it raises, or the
      value it stores (None when the trimmed text is empty). */
  function CheckProductField(rule: FieldRule, raw: RawRecord, info: ServiceInfo, index: nat): Result<Option<Value>> {
    var value := RawText(raw, rule.name);
    if rule.required && value == "" then Err(Failure(MissingRequired, rule.name, ProductField(index)))
    else if value == "" then Ok(None)
    else match rule.kind
      case StringKind(d) =>
        if ProductTooLong(info, rule.key, d, |value|) then Err(Failure(TooLong(false), rule.name, ProductItem(index)))
        else CheckOrigin(rule, value, info, index)
      case IntKind(lo, hi) =>
        var n := FilterInt(value);
        if n.None? || n.value == 0 then Err(Failure(NotInteger, rule.name, ProductItem(index)))
        else if n.value < lo then Err(Failure(BelowMinimum, rule.name, ProductItem(index)))
        else if n.value > hi then Err(Failure(AboveMaximum, rule.name, ProductItem(index)))
        else Ok(Some(Int(n.value)))
      case NumberKind(_, _) =>
        if !IsNumeric(value) then Err(Failure(NotNumber, rule.name, ProductItem(index)))
        else Ok(Some(Float(NumericValue(value))))
  }

  /** One row passes exactly when it meets every check. */
  lemma CheckProductFieldAccepts(rule: FieldRule, raw: RawRecord, info: ServiceInfo, index: nat)
    ensures CheckProductField(rule, raw, info, index).Ok? <==> ProductFieldAccepted(rule, RawText(raw, rule.name), info)
  {
    UpperHasNoLower(RawText(raw, rule.name));
  }

  /** A passing row stores nothing for empty text and its stored value otherwise. */
  lemma CheckProductFieldStores(rule: FieldRule, raw: RawRecord, info: ServiceInfo, index: nat)
    ensures var r := CheckProductField(rule, raw, info, index);
      var text := RawText(raw, rule.name);
      r.Ok? ==> r.value == if text == "" then None else Some(StoredValue(rule, text))
  {
  }

  /** A required row is missing only when its trimmed text is the empty string:
      unlike address fields, "0" is present. */
  lemma CheckProductFieldMissing(rule: FieldRule, raw: RawRecord, info: ServiceInfo, index: nat)
    ensures CheckProductField(rule, raw, info, index) == Err(Failure(MissingRequired, rule.name, ProductField(index)))
      <==> rule.required && RawText(raw, rule.name) == ""
  {
  }

  /** Failures name the row's input; a missing field carries the "field:"
      prefix, a country outside the supported list no product prefix, and every
      other failure the "Product no." prefix, all with the product's index. */
  lemma CheckProductFieldFailure(rule: FieldRule, raw: RawRecord, info: ServiceInfo, index: nat)
    requires CheckProductField(rule, raw, info, index).Err?
    ensures var f := CheckProductField(rule, raw, info, index).failure;
      f.field == rule.name && Code(f) == 400 &&
      (f.kind == MissingRequired <==> f.prefix == ProductField(index)) &&
      (f.kind.UnsupportedCountry? <==> f.prefix == Plain) &&
      (f.kind != MissingRequired && !f.kind.UnsupportedCountry? <==> f.prefix == ProductItem(index)) &&
      f.kind != TooLong(true)
  {
  }

  /** A quantity of zero, however written, is "not an integer". */
  lemma ZeroQuantityNotInteger(raw: RawRecord, info: ServiceInfo, index: nat)
    requires FilterInt(RawText(raw, "quantity")) == Some(0)
    ensures CheckProductField(ProductFields(false)[1], raw, info, index) ==
      Err(Failure(NotInteger, "quantity", ProductItem(index)))
  {
  }

  /** A weight or value row accepts every numeric text, whatever its sign or
      size: the table's minimum and maximum are never consulted. */
  lemma NumberRowsUnbounded(rule: FieldRule, raw: RawRecord, info: ServiceInfo, index: nat)
    requires rule.kind.NumberKind? && IsNumeric(RawText(raw, rule.name)) && RawText(raw, rule.name) != ""
    ensures CheckProductField(rule, raw, info, index) == Ok(Some(Float(NumericValue(RawText(raw, rule.name)))))
  {
  }

  // ---------------------------------------------------------------------------
  // The per-product loop

  /** The loop from row k on, with the record built so far. */
  function ProductFrom(fields: seq<FieldRule>, k: nat, raw: RawRecord, info: ServiceInfo, index: nat, acc: Record)
    : Result<Record>
    requires k <= |fields|
    decreases |fields| - k
  {
    if k == |fields| then Ok(acc)
    else match CheckProductField(fields[k], raw, info, index)
      case Err(f) => Err(f)
      case Ok(None) => ProductFrom(fields, k + 1, raw, info, index, acc)
      case Ok(Some(v)) => ProductFrom(fields, k + 1, raw, info, index, Put(acc, fields[k].key, v))
  }

  /** validateProduct: the whole table from an empty result. */
  function ProductSpec(fields: seq<FieldRule>, raw: RawRecord, info: ServiceInfo, index: nat): Result<Record> {
    ProductFrom(fields, 0, raw, info, index, [])
  }

  /** One pass of the validateProduct loop body, in the order the loop checks. */
  method ValidateProductField(field: FieldRule, product: RawRecord, info: ServiceInfo, index: nat)
    returns (r: Result<Option<Value>>)
    ensures r == CheckProductField(field, product, info, index)
    ensures r.Ok? <==> ProductFieldAccepted(field, RawText(product, field.name), info)
    ensures r.Ok? ==> r.value == if RawText(product, field.name) == "" then None
                                 else Some(StoredValue(field, RawText(product, field.name)))
    ensures r.Err? ==> r.failure.field == field.name && Code(r.failure) == 400
  {
    CheckProductFieldAccepts(field, product, info, index);
    CheckProductFieldStores(field, product, info, index);
    var text := RawText(product, field.name);
    if field.required && text == "" {
      return Err(Failure(MissingRequired, field.name, ProductField(index)));
    }
    if text == "" {
      return Ok(None);
    }
    var value: Value;
    match field.kind {
      case StringKind(defaultLength) =>
        if ProductTooLong(info, field.key, defaultLength, |text|) {
          return Err(Failure(TooLong(false), field.name, ProductItem(index)));
        }
        value := Str(text);
      case IntKind(min, max) =>
        var n := FilterInt(text);
        if n.None? || n.value == 0 {
          return Err(Failure(NotInteger, field.name, ProductItem(index)));
        }
        if n.value < min {
          return Err(Failure(BelowMinimum, field.name, ProductItem(index)));
        }
        if n.value > max {
          return Err(Failure(AboveMaximum, field.name, ProductItem(index)));
        }
        return Ok(Some(Int(n.value)));
      case NumberKind(_, _) =>
        if !IsNumeric(text) {
          return Err(Failure(NotNumber, field.name, ProductItem(index)));
        }
        return Ok(Some(Float(NumericValue(text))));
    }
    if field.key == "OriginCountry" {
      if ByteLength(text) == 2 {
        text := Upper(text);
        var available := AvailableCountries(info);
        if available.Some? {
          var checked := ValidateCountryCode(text, available.value, field.name);
          if checked.Err? {
            return Err(checked.failure);
          }
        }
        value := Str(text);
      } else {
        return Err(Failure(InvalidCountryFormat, field.name, ProductItem(index)));
      }
    }
    return Ok(Some(value));
  }

  /** validateProduct: checks the rows in table order, stops at the first
      failure, and otherwise returns the stored values. */
  method ValidateProductFields(fields: seq<FieldRule>, product: RawRecord, info: ServiceInfo, index: nat)
    returns (r: Result<Record>)
    ensures r == ProductSpec(fields, product, info, index)
  {
    var result: Record := [];
    var k := 0;
    while k < |fields|
      invariant k <= |fields|
      invariant ProductSpec(fields, product, info, index) == ProductFrom(fields, k, product, info, index, result)
    {
      var checked := ValidateProductField(fields[k], product, info, index);
      if checked.Err? {
        return Err(checked.failure);
      }
      if checked.value.Some? {
        ProductFromStore(fields, k, product, info, index, result, checked.value.value);
        result := Put(result, fields[k].key, checked.value.value);
      } else {
        ProductFromSkip(fields, k, product, info, index, result);
      }
      k := k + 1;
    }
    return Ok(result);
  }

  // ---------------------------------------------------------------------------
  // What one product's loop computes

  lemma ProductFromSkip(fields: seq<FieldRule>, k: nat, raw: RawRecord, info: ServiceInfo, index: nat, acc: Record)
    requires k < |fields| && CheckProductField(fields[k], raw, info, index) == Ok(None)
    ensures ProductFrom(fields, k, raw, info, index, acc) == ProductFrom(fields, k + 1, raw, info, index, acc)
  {
  }

  lemma ProductFromStore(fields: seq<FieldRule>, k: nat, raw: RawRecord, info: ServiceInfo, index: nat,
                         acc: Record, v: Value)
    requires k < |fields| && CheckProductField(fields[k], raw, info, index) == Ok(Some(v))
    ensures ProductFrom(fields, k, raw, info, index, acc) ==
      ProductFrom(fields, k + 1, raw, info, index, Put(acc, fields[k].key, v))
  {
  }

  /** A product passes exactly when every row from k on passes. */
  lemma {:induction false} ProductFromOkIff(fields: seq<FieldRule>, k: nat, raw: RawRecord, info: ServiceInfo,
                                            index: nat, acc: Record)
    requires k <= |fields|
    ensures ProductFrom(fields, k, raw, info, index, acc).Ok? <==>
      forall j :: k <= j < |fields| ==> ProductFieldAccepted(fields[j], RawText(raw, fields[j].name), info)
    decreases |fields| - k
  {
    if k < |fields| {
      var c := CheckProductField(fields[k], raw, info, index);
      CheckProductFieldAccepts(fields[k], raw, info, index);
      if c.Ok? {
        var acc' := if c.value.Some? then Put(acc, fields[k].key, c.value.value) else acc;
        ProductFromOkIff(fields, k + 1, raw, info, index, acc');
      }
    }
  }

  /** A product reports the failure of its first failing row: when row j
      fails and rows k to j-1 pass, the run from row k ends with row j's failure. */
  lemma {:induction false} ProductFromFirstFailure(fields: seq<FieldRule>, k: nat, raw: RawRecord, info: ServiceInfo,
                                                   index: nat, acc: Record, j: nat)
    requires k <= j < |fields| && CheckProductField(fields[j], raw, info, index).Err?
    requires forall i :: k <= i < j ==> CheckProductField(fields[i], raw, info, index).Ok?
    ensures ProductFrom(fields, k, raw, info, index, acc) == Err(CheckProductField(fields[j], raw, info, index).failure)
    decreases j - k
  {
    if k < j {
      var c := CheckProductField(fields[k], raw, info, index);
      var acc' := if c.value.Some? then Put(acc, fields[k].key, c.value.value) else acc;
      assert ProductFrom(fields, k, raw, info, index, acc) == ProductFrom(fields, k + 1, raw, info, index, acc');
      ProductFromFirstFailure(fields, k + 1, raw, info, index, acc', j);
    }
  }

  /** What a passing product stores, from row k on: one entry per row whose
      trimmed text is not empty, in table order. */
  function ProductProjection(fields: seq<FieldRule>, k: nat, raw: RawRecord): Record
    requires k <= |fields|
    decreases |fields| - k
  {
    if k == |fields| then []
    else
      var text := RawText(raw, fields[k].name);
      (if text == "" then [] else [Entry(fields[k].key, StoredValue(fields[k], text))]) +
      ProductProjection(fields, k + 1, raw)
  }

  lemma StoreStep(fields: seq<FieldRule>, k: nat, raw: RawRecord, info: ServiceInfo, index: nat, acc: Record, v: Value)
    requires k < |fields| && DistinctKeys(fields)
    requires forall j :: k <= j < |fields| ==> !Has(acc, fields[j].key)
    requires CheckProductField(fields[k], raw, info, index) == Ok(Some(v))
    requires RawText(raw, fields[k].name) != "" && v == StoredValue(fields[k], RawText(raw, fields[k].name))
    ensures ProductFrom(fields, k, raw, info, index, acc) ==
      ProductFrom(fields, k + 1, raw, info, index, acc + [Entry(fields[k].key, v)])
    ensures ProductProjection(fields, k, raw) == [Entry(fields[k].key, v)] + ProductProjection(fields, k + 1, raw)
    ensures forall j :: k + 1 <= j < |fields| ==> !Has(acc + [Entry(fields[k].key, v)], fields[j].key)
  {
    ProductFromStore(fields, k, raw, info, index, acc, v);
    LaterKeysStayFresh(fields, k, acc, v);
  }

  /** Over a table with distinct keys, a passing product returns the projection. */
  lemma {:induction false} ProductFromResult(fields: seq<FieldRule>, k: nat, raw: RawRecord, info: ServiceInfo,
                                             index: nat, acc: Record)
    requires k <= |fields| && DistinctKeys(fields)
    requires forall j :: k <= j < |fields| ==> !Has(acc, fields[j].key)
    requires ProductFrom(fields, k, raw, info, index, acc).Ok?
    ensures ProductFrom(fields, k, raw, info, index, acc).value == acc + ProductProjection(fields, k, raw)
    decreases |fields| - k
  {
    if k == |fields| {
      assert acc + [] == acc;
    } else {
      var c := CheckProductField(fields[k], raw, info, index);
      CheckProductFieldStores(fields[k], raw, info, index);
      if c.value.Some? {
        var e := Entry(fields[k].key, c.value.value);
        StoreStep(fields, k, raw, info, index, acc, c.value.value);
        ProductFromResult(fields, k + 1, raw, info, index, acc + [e]);
        AppendAssoc(acc, e, ProductProjection(fields, k + 1, raw));
      } else {
        ProductFromSkip(fields, k, raw, info, index, acc);
        ProductFromResult(fields, k + 1, raw, info, index, acc);
      }
    }
  }

  /** validateProduct succeeds iff every row passes, and then returns exactly
      the rows with non-empty trimmed text, each with its stored value. */
  lemma ProductOutcome(fields: seq<FieldRule>, raw: RawRecord, info: ServiceInfo, index: nat)
    requires DistinctKeys(fields)
    ensures ProductSpec(fields, raw, info, index).Ok? <==>
      forall j :: 0 <= j < |fields| ==> ProductFieldAccepted(fields[j], RawText(raw, fields[j].name), info)
    ensures ProductSpec(fields, raw, info, index).Ok? ==>
      ProductSpec(fields, raw, info, index).value == ProductProjection(fields, 0, raw)
  {
    ProductFromOkIff(fields, 0, raw, info, index, []);
    if ProductSpec(fields, raw, info, index).Ok? {
      ProductFromResult(fields, 0, raw, info, index, []);
    }
  }

  /** The projection from row k on holds only keys of rows k onwards. */
  lemma {:induction false} ProductProjectionKeys(fields: seq<FieldRule>, k: nat, raw: RawRecord)
    requires k <= |fields|
    ensures forall key :: key in Keys(ProductProjection(fields, k, raw)) ==>
      exists j :: k <= j < |fields| && fields[j].key == key && RawText(raw, fields[j].name) != ""
    decreases |fields| - k
  {
    if k < |fields| {
      ProductProjectionKeys(fields, k + 1, raw);
      var text := RawText(raw, fields[k].name);
      var head: Record := if text == "" then [] else [Entry(fields[k].key, StoredValue(fields[k], text))];
      assert ProductProjection(fields, k, raw) == head + ProductProjection(fields, k + 1, raw);
      KeysConcat(head, ProductProjection(fields, k + 1, raw));
    }
  }

  /** The projection holds row j's stored value under row j's key, and nothing
      under it when row j's text is empty. */
  lemma {:induction false} FindInProjection(fields: seq<FieldRule>, k: nat, raw: RawRecord, j: nat)
    requires k <= j < |fields| && DistinctKeys(fields)
    ensures var text := RawText(raw, fields[j].name);
      Find(ProductProjection(fields, k, raw), fields[j].key) == if text == "" then None else Some(StoredValue(fields[j], text))
    decreases |fields| - k
  {
    var text := RawText(raw, fields[k].name);
    var rest := ProductProjection(fields, k + 1, raw);
    var p := ProductProjection(fields, k, raw);
    if text == "" {
      assert p == rest;
      if j > k {
        FindInProjection(fields, k + 1, raw, j);
      } else {
        ProductProjectionKeys(fields, k + 1, raw);
        assert !Has(rest, fields[k].key);
      }
    } else {
      assert p[0] == Entry(fields[k].key, StoredValue(fields[k], text)) && p[1..] == rest;
      if j > k {
        assert fields[k].key != fields[j].key;
        FindInProjection(fields, k + 1, raw, j);
      }
    }
  }

  // ---------------------------------------------------------------------------
  // The products loop

  /** `(int)` of a stored value; the product rows store Quantity as an integer. */
  function IntOf(v: Option<Value>): int {
    match v
    case Some(Int(n)) => n
    case _ => 0
  }

  function QuantityOf(rec: Record): int { IntOf(Find(rec, "Quantity")) }
  function WeightOf(rec: Record): real { FloatOf(Find(rec, "Weight")) }
  function ValueOf(rec: Record): real { FloatOf(Find(rec, "Value")) }

  /** The lb-to-kg rewrite of one product: with weight unit lb the stored
      weight becomes round(w × 0.453592, 2), in place. */
  function ConvertWeight(rec: Record, unit: string): Record {
    if unit == "lb" then Put(rec, "Weight", Float(Round2(WeightOf(rec) * LbToKg))) else rec
  }

  /** The rewrite touches the weight only. */
  lemma ConvertKeepsQuantityAndValue(rec: Record, unit: string)
    ensures QuantityOf(ConvertWeight(rec, unit)) == QuantityOf(rec)
    ensures ValueOf(ConvertWeight(rec, unit)) == ValueOf(rec)
  {
  }

  /** The three running totals. */
  datatype Totals = Totals(amount: int, weight: real, value: real)

  /** One product added to the totals: its quantity, its weight times its
      quantity and its value times its quantity. */
  function AddItem(t: Totals, rec: Record): Totals {
    var q := QuantityOf(rec) as real;
    Totals(t.amount + QuantityOf(rec), t.weight + WeightOf(rec) * q, t.value + ValueOf(rec) * q)
  }

  /** Σ quantity, Σ weight × quantity and Σ value × quantity over a list of
      products. */
  function TotalsOf(rs: seq<Record>): Totals {
    if rs == [] then Totals(0, 0.0, 0.0)
    else AddItem(TotalsOf(rs[..|rs| - 1]), rs[|rs| - 1])
  }

  /** The caps, checked in the order quantity, value, weight. */
  function AggregateCheck(t: Totals, info: ServiceInfo): Option<Failure> {
    if t.amount > MaxProductCount then Some(Failure(TotalQuantityExceeded, "", Plain))
    else if t.value > MaxValue then Some(Failure(TotalValueExceeded, "", Plain))
    else if t.weight > MaxWeightOf(info) then Some(Failure(TotalWeightExceeded, "", Plain))
    else None
  }

  /** The item loop from product k on, with the converted products so far. */
  function ItemsFrom(fields: seq<FieldRule>, products: seq<RawRecord>, k: nat, info: ServiceInfo, unit: string,
                     acc: seq<Record>): Result<seq<Record>>
    requires k <= |products|
    decreases |products| - k
  {
    if k == |products| then Ok(acc)
    else match ProductSpec(fields, products[k], info, k)
      case Err(f) => Err(f)
      case Ok(rec) => ItemsFrom(fields, products, k + 1, info, unit, acc + [ConvertWeight(rec, unit)])
  }

  /** products(): an empty list fails; otherwise every product is validated in
      turn and the totals are checked against the caps. */
  function ProductsSpec(products: seq<RawRecord>, consignorCountry: string, consigneeCountry: string,
                        info: ServiceInfo, unit: string): Result<seq<Record>>
  {
    if products == [] then Err(Failure(EmptyProducts, "", Plain))
    else
      var fields := ProductFields(HsCodeRequired(consignorCountry, consigneeCountry));
      match ItemsFrom(fields, products, 0, info, unit, [])
      case Err(f) => Err(f)
      case Ok(rs) =>
        match AggregateCheck(TotalsOf(rs), info)
        case Some(f) => Err(f)
        case None => Ok(rs)
  }

  lemma TotalsAppend(rs: seq<Record>, rec: Record)
    ensures TotalsOf(rs + [rec]) == AddItem(TotalsOf(rs), rec)
  {
    assert (rs + [rec])[..|rs|] == rs;
  }

  /** A passing product k moves the item loop on with its converted record. */
  lemma ItemsFromStep(fields: seq<FieldRule>, products: seq<RawRecord>, k: nat, info: ServiceInfo, unit: string,
                      acc: seq<Record>, rec: Record)
    requires k < |products| && ProductSpec(fields, products[k], info, k) == Ok(rec)
    ensures ItemsFrom(fields, products, k, info, unit, acc) ==
      ItemsFrom(fields, products, k + 1, info, unit, acc + [ConvertWeight(rec, unit)])
  {
  }

  /** A failing product k stops the item loop with its failure. */
  lemma ItemsFromStop(fields: seq<FieldRule>, products: seq<RawRecord>, k: nat, info: ServiceInfo, unit: string,
                      acc: seq<Record>)
    requires k < |products| && ProductSpec(fields, products[k], info, k).Err?
    ensures ItemsFrom(fields, products, k, info, unit, acc) == Err(ProductSpec(fields, products[k], info, k).failure)
  {
  }

  /** The in-place rewrite of one product's weight when the unit is lb. */
  method RewriteWeight(rec: Record, weightUnit: string) returns (r: Record)
    ensures r == ConvertWeight(rec, weightUnit)
    ensures QuantityOf(r) == QuantityOf(rec) && ValueOf(r) == ValueOf(rec)
  {
    r := rec;
    if weightUnit == "lb" {
      r := Put(r, "Weight", Float(Round2(WeightOf(r) * LbToKg)));
    }
    ConvertKeepsQuantityAndValue(rec, weightUnit);
  }

  /** The foreach loop of products(): validates each product in turn, applies
      the weight rewrite, and keeps the running totals of what it has kept. */
  method ValidateItems(fields: seq<FieldRule>, products: seq<RawRecord>, info: ServiceInfo, weightUnit: string)
    returns (r: Result<seq<Record>>, totals: Totals)
    ensures r == ItemsFrom(fields, products, 0, info, weightUnit, [])
    ensures r.Ok? ==> totals == TotalsOf(r.value)
  {
    var result: seq<Record> := [];
    var amount := 0;
    var weight := 0.0;
    var value := 0.0;
    var index := 0;
    while index < |products|
      invariant index <= |products|
      invariant ItemsFrom(fields, products, 0, info, weightUnit, []) ==
        ItemsFrom(fields, products, index, info, weightUnit, result)
      invariant Totals(amount, weight, value) == TotalsOf(result)
    {
      var item := ValidateProductFields(fields, products[index], info, index);
      if item.Err? {
        return Err(item.failure), Totals(amount, weight, value);
      }
      ItemsFromStep(fields, products, index, info, weightUnit, result, item.value);
      amount := amount + QuantityOf(item.value);
      var rec := RewriteWeight(item.value, weightUnit);
      weight := weight + WeightOf(rec) * QuantityOf(rec) as real;
      value := value + ValueOf(rec) * QuantityOf(rec) as real;
      TotalsAppend(result, rec);
      result := result + [rec];
      index := index + 1;
    }
    return Ok(result), Totals(amount, weight, value);
  }

  /** products(): an empty list fails, every product is validated against the
      table for the two countries with the validator's weight unit, and the
      totals are checked against the caps in the source's order. */
  method Products(v: Validator, products: seq<RawRecord>, consignorCountry: string, consigneeCountry: string,
                  info: ServiceInfo)
    returns (r: Result<seq<Record>>)
    ensures r == ProductsSpec(products, consignorCountry, consigneeCountry, info, v.weightUnit)
  {
    var maxWeight := MaxWeightOf(info);
    if products == [] {
      return Err(Failure(EmptyProducts, "", Plain));
    }
    var fields := ProductFields(consigneeCountry != consignorCountry);
    var items, totals := ValidateItems(fields, products, info, v.weightUnit);
    if items.Err? {
      return Err(items.failure);
    }
    if totals.amount > MaxProductCount {
      return Err(Failure(TotalQuantityExceeded, "", Plain));
    }
    if totals.value > MaxValue {
      return Err(Failure(TotalValueExceeded, "", Plain));
    }
    if totals.weight > maxWeight {
      return Err(Failure(TotalWeightExceeded, "", Plain));
    }
    return Ok(items.value);
  }

  // ---------------------------------------------------------------------------
  // What products() computes

  /** The record kept for product i: its validated record after the weight
      rewrite (empty for a product that fails, which no kept list holds). */
  function ItemOutput(fields: seq<FieldRule>, item: RawRecord, info: ServiceInfo, unit: string, i: nat): Record {
    match ProductSpec(fields, item, info, i)
    case Ok(rec) => ConvertWeight(rec, unit)
    case Err(_) => []
  }

  /** The records kept for the first n products, in input order. */
  function Outputs(fields: seq<FieldRule>, products: seq<RawRecord>, info: ServiceInfo, unit: string, n: nat)
    : seq<Record>
    requires n <= |products|
  {
    if n == 0 then []
    else Outputs(fields, products, info, unit, n - 1) + [ItemOutput(fields, products[n - 1], info, unit, n - 1)]
  }

  /** Every product passes its own table checks. */
  predicate AllItemsValid(fields: seq<FieldRule>, products: seq<RawRecord>, info: ServiceInfo) {
    forall i :: 0 <= i < |products| ==> ProductSpec(fields, products[i], info, i).Ok?
  }

  /** One kept record per product, each the product's own output. */
  lemma {:induction false} OutputsShape(fields: seq<FieldRule>, products: seq<RawRecord>, info: ServiceInfo,
                                        unit: string, n: nat)
    requires n <= |products|
    ensures |Outputs(fields, products, info, unit, n)| == n
    ensures forall i :: 0 <= i < n ==> Outputs(fields, products, info, unit, n)[i] == ItemOutput(fields, products[i], info, unit, i)
  {
    if n > 0 {
      OutputsShape(fields, products, info, unit, n - 1);
      var prev := Outputs(fields, products, info, unit, n - 1);
      var last := ItemOutput(fields, products[n - 1], info, unit, n - 1);
      assert Outputs(fields, products, info, unit, n) == prev + [last];
      forall i | 0 <= i < n
        ensures (prev + [last])[i] == ItemOutput(fields, products[i], info, unit, i)
      {
        if i < n - 1 {
          assert (prev + [last])[i] == prev[i];
        }
      }
    }
  }

  /** From product k on, with every remaining product valid, the item loop keeps
      the outputs of all products. */
  lemma {:induction false} ItemsFromValid(fields: seq<FieldRule>, products: seq<RawRecord>, k: nat, info: ServiceInfo,
                                          unit: string)
    requires k <= |products|
    requires forall i :: k <= i < |products| ==> ProductSpec(fields, products[i], info, i).Ok?
    ensures ItemsFrom(fields, products, k, info, unit, Outputs(fields, products, info, unit, k)) ==
      Ok(Outputs(fields, products, info, unit, |products|))
    decreases |products| - k
  {
    if k < |products| {
      var rec := ProductSpec(fields, products[k], info, k).value;
      ItemsFromStep(fields, products, k, info, unit, Outputs(fields, products, info, unit, k), rec);
      assert Outputs(fields, products, info, unit, k + 1) ==
        Outputs(fields, products, info, unit, k) + [ConvertWeight(rec, unit)];
      ItemsFromValid(fields, products, k + 1, info, unit);
    }
  }

  /** With products k..i-1 valid and product i failing, the item loop fails
      with product i's failure. */
  lemma {:induction false} ItemsFromInvalid(fields: seq<FieldRule>, products: seq<RawRecord>, k: nat, i: nat,
                                            info: ServiceInfo, unit: string, acc: seq<Record>)
    requires k <= i < |products| && ProductSpec(fields, products[i], info, i).Err?
    requires forall j :: k <= j < i ==> ProductSpec(fields, products[j], info, j).Ok?
    ensures ItemsFrom(fields, products, k, info, unit, acc) == Err(ProductSpec(fields, products[i], info, i).failure)
    decreases i - k
  {
    if k < i {
      var rec := ProductSpec(fields, products[k], info, k).value;
      ItemsFromStep(fields, products, k, info, unit, acc, rec);
      ItemsFromInvalid(fields, products, k + 1, i, info, unit, acc + [ConvertWeight(rec, unit)]);
    } else {
      ItemsFromStop(fields, products, k, info, unit, acc);
    }
  }

  /** The caps in the order products() checks them. */
  lemma AggregateCheckOrder(t: Totals, info: ServiceInfo)
    ensures AggregateCheck(t, info).None? <==>
      t.amount <= MaxProductCount && t.value <= MaxValue && t.weight <= MaxWeightOf(info)
    ensures t.amount > MaxProductCount ==> AggregateCheck(t, info) == Some(Failure(TotalQuantityExceeded, "", Plain))
    ensures t.amount <= MaxProductCount && t.value > MaxValue ==>
      AggregateCheck(t, info) == Some(Failure(TotalValueExceeded, "", Plain))
    ensures t.amount <= MaxProductCount && t.value <= MaxValue && t.weight > MaxWeightOf(info) ==>
      AggregateCheck(t, info) == Some(Failure(TotalWeightExceeded, "", Plain))
  {
  }

  /** products() for a non-empty list whose products all pass: the caps alone
      decide, applied to the totals of the kept records. */
  lemma ProductsWhenItemsValid(products: seq<RawRecord>, consignorCountry: string, consigneeCountry: string,
                               info: ServiceInfo, unit: string)
    requires products != []
    requires AllItemsValid(ProductFields(HsCodeRequired(consignorCountry, consigneeCountry)), products, info)
    ensures var fields := ProductFields(HsCodeRequired(consignorCountry, consigneeCountry));
      var outs := Outputs(fields, products, info, unit, |products|);
      ProductsSpec(products, consignorCountry, consigneeCountry, info, unit) ==
        match AggregateCheck(TotalsOf(outs), info)
        case Some(f) => Err(f)
        case None => Ok(outs)
  {
    var fields := ProductFields(HsCodeRequired(consignorCountry, consigneeCountry));
    ItemsFromValid(fields, products, 0, info, unit);
  }

  /** The first product that fails decides the failure; no cap is checked. */
  lemma FirstInvalidProduct(products: seq<RawRecord>, consignorCountry: string, consigneeCountry: string,
                            info: ServiceInfo, unit: string, i: nat)
    requires var fields := ProductFields(HsCodeRequired(consignorCountry, consigneeCountry));
      i < |products| && ProductSpec(fields, products[i], info, i).Err? &&
      forall j :: 0 <= j < i ==> ProductSpec(fields, products[j], info, j).Ok?
    ensures var fields := ProductFields(HsCodeRequired(consignorCountry, consigneeCountry));
      ProductsSpec(products, consignorCountry, consigneeCountry, info, unit) ==
        Err(ProductSpec(fields, products[i], info, i).failure)
  {
    var fields := ProductFields(HsCodeRequired(consignorCountry, consigneeCountry));
    ItemsFromInvalid(fields, products, 0, i, info, unit, []);
  }

  /** products() succeeds exactly for a non-empty list whose products all pass
      and whose totals are within the three caps; it then returns one record
      per product, in input order. An empty list is refused as such. */
  lemma ProductsOutcome(products: seq<RawRecord>, consignorCountry: string, consigneeCountry: string,
                        info: ServiceInfo, unit: string)
    ensures var fields := ProductFields(HsCodeRequired(consignorCountry, consigneeCountry));
      var outs := Outputs(fields, products, info, unit, |products|);
      var t := TotalsOf(outs);
      var r := ProductsSpec(products, consignorCountry, consigneeCountry, info, unit);
      (r.Ok? <==> products != [] && AllItemsValid(fields, products, info) &&
                  t.amount <= MaxProductCount && t.value <= MaxValue && t.weight <= MaxWeightOf(info)) &&
      (r.Ok? ==> r.value == outs && |r.value| == |products|) &&
      (products == [] ==> r == Err(Failure(EmptyProducts, "", Plain)))
  {
    var fields := ProductFields(HsCodeRequired(consignorCountry, consigneeCountry));
    var outs := Outputs(fields, products, info, unit, |products|);
    OutputsShape(fields, products, info, unit, |products|);
    AggregateCheckOrder(TotalsOf(outs), info);
    if products != [] {
      if AllItemsValid(fields, products, info) {
        ProductsWhenItemsValid(products, consignorCountry, consigneeCountry, info, unit);
      } else {
        var i := FirstFailing(fields, products, info, 0);
        FirstInvalidProduct(products, consignorCountry, consigneeCountry, info, unit, i);
      }
    }
  }

  /** The index of the first failing product from k on. */
  function FirstFailing(fields: seq<FieldRule>, products: seq<RawRecord>, info: ServiceInfo, k: nat): (i: nat)
    requires k <= |products|
    requires exists j :: k <= j < |products| && ProductSpec(fields, products[j], info, j).Err?
    ensures k <= i < |products| && ProductSpec(fields, products[i], info, i).Err?
    ensures forall j :: k <= j < i ==> ProductSpec(fields, products[j], info, j).Ok?
    decreases |products| - k
  {
    if ProductSpec(fields, products[k], info, k).Err? then k
    else FirstFailing(fields, products, info, k + 1)
  }

  // ---------------------------------------------------------------------------
  // What a kept product record holds

  /** Row j of a passing product passes its checks, and the product's record
      holds the row's stored value, or nothing when its text is empty. */
  lemma KeptField(fields: seq<FieldRule>, item: RawRecord, info: ServiceInfo, i: nat, j: nat)
    requires DistinctKeys(fields) && j < |fields| && ProductSpec(fields, item, info, i).Ok?
    ensures var text := RawText(item, fields[j].name);
      ProductFieldAccepted(fields[j], text, info) &&
      Find(ProductSpec(fields, item, info, i).value, fields[j].key) ==
        if text == "" then None else Some(StoredValue(fields[j], text))
  {
    ProductOutcome(fields, item, info, i);
    FindInProjection(fields, 0, item, j);
  }

  /** The rewrite leaves every key but the weight as it was. */
  lemma ConvertFind(rec: Record, unit: string, key: string)
    requires key != "Weight"
    ensures Find(ConvertWeight(rec, unit), key) == Find(rec, key)
  {
  }

  /** With unit lb the weight becomes round(w × 0.453592, 2); otherwise it is
      kept. */
  lemma ConvertWeightOf(rec: Record, unit: string)
    ensures WeightOf(ConvertWeight(rec, unit)) == KgWeight(WeightOf(rec), unit)
  {
  }

  /** Row j (other than the weight) of a passing product passes its checks, and
      the kept record holds its stored value, or nothing when its text is
      empty. */
  lemma KeptRow(hsRequired: bool, item: RawRecord, info: ServiceInfo, unit: string, i: nat, j: nat)
    requires ProductSpec(ProductFields(hsRequired), item, info, i).Ok?
    requires j < 6 && j != 2
    ensures var f := ProductFields(hsRequired);
      var text := RawText(item, f[j].name);
      ProductFieldAccepted(f[j], text, info) &&
      Find(ItemOutput(f, item, info, unit, i), f[j].key) == if text == "" then None else Some(StoredValue(f[j], text))
  {
    var f := ProductFields(hsRequired);
    ProductFieldsShape(hsRequired);
    ProductKeysDistinct(hsRequired);
    KeptField(f, item, info, i, j);
    ConvertFind(ProductSpec(f, item, info, i).value, unit, f[j].key);
  }

  /** A required number row keyed Weight of a passing product is numeric, and
      the kept record holds its value in kg. */
  lemma KeptWeightField(fields: seq<FieldRule>, item: RawRecord, info: ServiceInfo, unit: string, i: nat, j: nat)
    requires DistinctKeys(fields) && j < |fields| && ProductSpec(fields, item, info, i).Ok?
    requires fields[j].key == "Weight" && fields[j].required && fields[j].kind.NumberKind?
    ensures var w := RawText(item, fields[j].name);
      IsNumeric(w) && WeightOf(ItemOutput(fields, item, info, unit, i)) == KgWeight(NumericValue(w), unit)
  {
    var w := RawText(item, fields[j].name);
    KeptField(fields, item, info, i, j);
    var rec := ProductSpec(fields, item, info, i).value;
    assert WeightOf(rec) == NumericValue(w);
    ConvertWeightOf(rec, unit);
  }

  /** The weight of a passing product is numeric, and the kept record holds it
      in kg: rewritten as round(w × 0.453592, 2) when the unit is lb. */
  lemma KeptWeight(hsRequired: bool, item: RawRecord, info: ServiceInfo, unit: string, i: nat)
    requires ProductSpec(ProductFields(hsRequired), item, info, i).Ok?
    ensures var w := RawText(item, "weight");
      IsNumeric(w) &&
      WeightOf(ItemOutput(ProductFields(hsRequired), item, info, unit, i)) == KgWeight(NumericValue(w), unit)
  {
    var f := ProductFields(hsRequired);
    assert f[2] == FieldRule("Weight", "weight", true, NumberKind(0.0, MaxShipmentWeight));
    ProductKeysDistinct(hsRequired);
    KeptWeightField(f, item, info, unit, i, 2);
  }

  /** A kept quantity is the filtered integer, between 1 and 50. */
  lemma KeptQuantity(hsRequired: bool, item: RawRecord, info: ServiceInfo, unit: string, i: nat)
    requires ProductSpec(ProductFields(hsRequired), item, info, i).Ok?
    ensures var out := ItemOutput(ProductFields(hsRequired), item, info, unit, i);
      FilterInt(RawText(item, "quantity")) == Some(QuantityOf(out)) && 1 <= QuantityOf(out) <= MaxProductCount
  {
    ProductFieldsShape(hsRequired);
    KeptRow(hsRequired, item, info, unit, i, 1);
  }

  /** A kept value is the numeric text, and 0.0 when the value is absent. */
  lemma KeptValue(hsRequired: bool, item: RawRecord, info: ServiceInfo, unit: string, i: nat)
    requires ProductSpec(ProductFields(hsRequired), item, info, i).Ok?
    ensures var out := ItemOutput(ProductFields(hsRequired), item, info, unit, i);
      var v := RawText(item, "value");
      (v == "" ==> ValueOf(out) == 0.0) && (v != "" ==> IsNumeric(v) && ValueOf(out) == NumericValue(v))
  {
    ProductFieldsShape(hsRequired);
    KeptRow(hsRequired, item, info, unit, i, 3);
  }

  /** A required HS code is present; an absent HS code leaves no key. */
  lemma KeptHsCode(hsRequired: bool, item: RawRecord, info: ServiceInfo, unit: string, i: nat)
    requires ProductSpec(ProductFields(hsRequired), item, info, i).Ok?
    ensures var out := ItemOutput(ProductFields(hsRequired), item, info, unit, i);
      var h := RawText(item, "hs_code");
      (hsRequired ==> h != "") && (h == "" <==> !Has(out, "HsCode"))
  {
    ProductFieldsShape(hsRequired);
    KeptRow(hsRequired, item, info, unit, i, 4);
  }

  // ---------------------------------------------------------------------------
  // What an accepted product list satisfies

  /** An accepted list is not empty, keeps one record per product, and its
      totals are within the three caps. */
  lemma ProductsWithinCaps(products: seq<RawRecord>, consignorCountry: string, consigneeCountry: string,
                           info: ServiceInfo, unit: string)
    requires ProductsSpec(products, consignorCountry, consigneeCountry, info, unit).Ok?
    ensures var r := ProductsSpec(products, consignorCountry, consigneeCountry, info, unit).value;
      var t := TotalsOf(r);
      products != [] && |r| == |products| &&
      t.amount <= MaxProductCount && t.value <= MaxValue && t.weight <= MaxWeightOf(info)
  {
    ProductsOutcome(products, consignorCountry, consigneeCountry, info, unit);
  }

  /** Every record of an accepted list holds a quantity between 1 and 50 and the
      product's weight in kg; when the two countries differ every product gave
      an HS code. */
  lemma ProductsKeptItems(products: seq<RawRecord>, consignorCountry: string, consigneeCountry: string,
                          info: ServiceInfo, unit: string)
    requires ProductsSpec(products, consignorCountry, consigneeCountry, info, unit).Ok?
    ensures var r := ProductsSpec(products, consignorCountry, consigneeCountry, info, unit).value;
      |r| == |products| &&
      forall i :: 0 <= i < |products| ==>
        1 <= QuantityOf(r[i]) <= MaxProductCount &&
        IsNumeric(RawText(products[i], "weight")) &&
        WeightOf(r[i]) == KgWeight(NumericValue(RawText(products[i], "weight")), unit) &&
        (HsCodeRequired(consignorCountry, consigneeCountry) ==> RawText(products[i], "hs_code") != "")
  {
    var h := HsCodeRequired(consignorCountry, consigneeCountry);
    var fields := ProductFields(h);
    ProductsOutcome(products, consignorCountry, consigneeCountry, info, unit);
    OutputsShape(fields, products, info, unit, |products|);
    var r := ProductsSpec(products, consignorCountry, consigneeCountry, info, unit).value;
    forall i | 0 <= i < |products|
      ensures 1 <= QuantityOf(r[i]) <= MaxProductCount &&
        IsNumeric(RawText(products[i], "weight")) &&
        WeightOf(r[i]) == KgWeight(NumericValue(RawText(products[i], "weight")), unit) &&
        (h ==> RawText(products[i], "hs_code") != "")
    {
      assert r[i] == ItemOutput(fields, products[i], info, unit, i);
      KeptQuantity(h, products[i], info, unit, i);
      KeptWeight(h, products[i], info, unit, i);
      KeptHsCode(h, products[i], info, unit, i);
    }
  }

  /** When every record holds a quantity of at least 1, the total quantity is
      at least the number of records. */
  lemma {:induction false} AmountAtLeastCount(rs: seq<Record>)
    requires forall i :: 0 <= i < |rs| ==> QuantityOf(rs[i]) >= 1
    ensures TotalsOf(rs).amount >= |rs|
  {
    if rs != [] {
      AmountAtLeastCount(rs[..|rs| - 1]);
    }
  }

  /** An accepted list holds at most 50 products. */
  lemma AtMostFiftyProducts(products: seq<RawRecord>, consignorCountry: string, consigneeCountry: string,
                            info: ServiceInfo, unit: string)
    requires ProductsSpec(products, consignorCountry, consigneeCountry, info, unit).Ok?
    ensures |products| <= MaxProductCount
  {
    var r := ProductsSpec(products, consignorCountry, consigneeCountry, info, unit).value;
    ProductsWithinCaps(products, consignorCountry, consigneeCountry, info, unit);
    ProductsKeptItems(products, consignorCountry, consigneeCountry, info, unit);
    AmountAtLeastCount(r);
  }
}
