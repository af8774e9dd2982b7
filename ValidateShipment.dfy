/** Shipment validation: the API key and service checks, a 24-row rule table
    whose special rows also set the validator's unit fields, and the unit
    conversion and range checks on the dimensions and the weight. */
module ValidateShipment {
  import opened Php
  import opened Validate

  // ---------------------------------------------------------------------------
  // apiKey and service

  /** apiKey: rejects exactly the keys PHP's empty() holds for and returns the
      others unchanged. */
  function ApiKey(apiKey: string): (r: Result<string>)
    ensures r.Ok? <==> apiKey != "" && apiKey != "0"
    ensures r.Ok? ==> r.value == apiKey
    ensures r.Err? ==> r.failure == Failure(InvalidApiKey, "", Plain)
  {
    if IsEmpty(apiKey) then Err(Failure(InvalidApiKey, "", Plain)) else Ok(apiKey)
  }

  /** `$services['response']['Services']['AllowedServices'] ?? []`. */
  function AllowedServicesOf(services: Option<seq<string>>): seq<string> {
    match services
    case Some(list) => list
    case None => []
  }

  /** service: accepts a name whose upper-cased form is, as a string, in the
      allowed list (none when the broker sends no list), and returns the name as
      given, not upper-cased. */
  function Service(service: string, services: Option<seq<string>>): (r: Result<string>)
    ensures r.Ok? <==> Upper(service) in AllowedServicesOf(services)
    ensures services.None? ==> r.Err?
    ensures r.Ok? ==> r.value == service
    ensures r.Err? ==> r.failure == Failure(InvalidService, "", Plain)
  {
    if Upper(service) in AllowedServicesOf(services) then Ok(service)
    else Err(Failure(InvalidService, "", Plain))
  }

  /** The case of the requested name does not matter for acceptance. */
  lemma ServiceCaseInsensitive(service: string, services: Option<seq<string>>)
    ensures Service(Lower(service), services).Ok? <==> Service(service, services).Ok?
  {
    UpperOfLower(service);
  }

  /** An allowed list with a lower-case letter in every entry accepts nothing. */
  lemma LowerCaseServicesNeverMatch(service: string, list: seq<string>)
    requires forall e :: e in list ==> exists i :: 0 <= i < |e| && IsLower(e[i])
    ensures Service(service, Some(list)).Err?
  {
    UpperHasNoLower(service);
  }

  // ---------------------------------------------------------------------------
  // The rule table

  /** The table's minimum for the weight, the dimensions and the values. */
  const MinMeasure: real := 0.01

  /** The shipment table, in the order the rows are checked. */
  function ShipmentFields(): seq<FieldRule> {
    [
      FieldRule("ShipperReference", "shipper_reference", true, StringKind(255)),
      FieldRule("OrderReference", "order_reference", false, StringKind(255)),
      FieldRule("OrderDate", "order_date", false, StringKind(10)),
      FieldRule("DisplayId", "display_id", false, StringKind(255)),
      FieldRule("InvoiceNumber", "invoice_number", false, StringKind(255)),
      FieldRule("Weight", "weight", true, NumberKind(MinMeasure, MaxShipmentWeight)),
      FieldRule("WeightUnit", "weight_unit", false, StringKind(2)),
      FieldRule("Length", "length", false, NumberKind(MinMeasure, MaxShipmentLength)),
      FieldRule("Width", "width", false, NumberKind(MinMeasure, MaxShipmentWidth)),
      FieldRule("Height", "height", false, NumberKind(MinMeasure, MaxShipmentHeight)),
      FieldRule("DimUnit", "dim_unit", false, StringKind(2)),
      FieldRule("Value", "value", false, NumberKind(MinMeasure, MaxValue)),
      FieldRule("ShipmentValue", "shipment_value", false, NumberKind(MinMeasure, MaxValue)),
      FieldRule("Currency", "currency", false, StringKind(3)),
      FieldRule("CustomsDuty", "customs_duty", false, StringKind(3)),
      FieldRule("Description", "description", false, StringKind(255)),
      FieldRule("DeclarationType", "declaration_type", false, StringKind(255)),
      FieldRule("DangerousGoods", "dangerous_goods", false, StringKind(1)),
      FieldRule("ExportCarrierName", "export_carriername", false, StringKind(255)),
      FieldRule("ExportAWB", "export_awb", false, StringKind(255)),
      FieldRule("NIVat", "ni_vat", false, StringKind(255)),
      FieldRule("EuEori", "eu_eori", false, StringKind(255)),
      FieldRule("Ioss", "ioss", false, StringKind(255)),
      FieldRule("LabelFormat", "label_format", false, StringKind(10))
    ]
  }

  /** Two shipment rows differ in key: the keys already differ in length or in
      their first letter. Split by the first row's position, to keep each proof
      small. */
  lemma LowRowKeysDiffer(i: nat, j: nat)
    requires i < 4 && i < j < |ShipmentFields()|
    ensures ShipmentFields()[i].key != ShipmentFields()[j].key
  {
    var f := ShipmentFields();
    assert |f[i].key| != |f[j].key| || f[i].key[0] != f[j].key[0];
  }

  lemma MiddleRowKeysDiffer(i: nat, j: nat)
    requires 4 <= i < 10 && i < j < |ShipmentFields()|
    ensures ShipmentFields()[i].key != ShipmentFields()[j].key
  {
    var f := ShipmentFields();
    assert |f[i].key| != |f[j].key| || f[i].key[0] != f[j].key[0];
  }

  lemma HighRowKeysDiffer(i: nat, j: nat)
    requires 10 <= i < j < |ShipmentFields()|
    ensures ShipmentFields()[i].key != ShipmentFields()[j].key
  {
    var f := ShipmentFields();
    assert |f[i].key| != |f[j].key| || f[i].key[0] != f[j].key[0];
  }

  /** No two shipment rows share a key. */
  lemma ShipmentKeysDistinct()
    ensures DistinctKeys(ShipmentFields())
  {
    var f := ShipmentFields();
    forall i, j | 0 <= i < j < |f|
      ensures f[i].key != f[j].key
    {
      if i < 4 {
        LowRowKeysDiffer(i, j);
      } else if i < 10 {
        MiddleRowKeysDiffer(i, j);
      } else {
        HighRowKeysDiffer(i, j);
      }
    }
  }

  // ---------------------------------------------------------------------------
  // The special rows

  /** `strtoupper(preg_replace('/\s+/', '', $value))`. */
  function Compact(s: string): string {
    Upper(RemoveSpaces(s))
  }

  /** `/^XI\d{9}$/`. */
  predicate NiVatPattern(u: string) {
    |u| == 11 && u[..2] == "XI" && AllDigits(u[2..])
  }

  /** `/^[A-Z]{2}\S+$/`. */
  predicate EoriPattern(u: string) {
    |u| >= 3 && IsUpperLetter(u[0]) && IsUpperLetter(u[1]) &&
    forall i :: 2 <= i < |u| ==> !IsSpace(u[i])
  }

  /** `/^IM[A-Z]{2}\d{12}$/`. */
  predicate IossPattern(u: string) {
    |u| == 16 && u[..2] == "IM" && IsUpperLetter(u[2]) && IsUpperLetter(u[3]) && AllDigits(u[4..])
  }

  /** `$valueLength > ($serviceLimits['DisplayId'] ?? 15)`: a numeric limit
      compares as a number, a non-numeric one as PHP 8 compares an integer
      with a non-numeric string. */
  predicate DisplayIdTooLong(info: ServiceInfo, len: nat) {
    if "DisplayId" in info.fieldLimits then
      match info.fieldLimits["DisplayId"]
      case Num(n) => len > n
      case NonNumeric(t) => IntGreaterThanText(len, t)
    else len > 15
  }

  /** The supported-country step of the EORI and IOSS rows: a country code is
      checked only when the supported list is an array. */
  predicate CountrySupported(code: string, info: ServiceInfo) {
    match AvailableCountries(info)
    case None => true
    case Some(list) => Upper(code) in list
  }

  /** The key-specific steps of validateShipment, one per key that has one. */
  datatype KeyCheck =
    | DateCheck | DisplayIdCheck | WeightUnitCheck | DimUnitCheck | CurrencyCheck
    | CustomsDutyCheck | DangerousGoodsCheck | NiVatCheck | EoriCheck | IossCheck
    | LabelFormatCheck | NoCheck

  /** Which key-specific step a row's key selects. */
  function KeyCheckOf(key: string): KeyCheck {
    if key == "OrderDate" then DateCheck
    else if key == "DisplayId" then DisplayIdCheck
    else if key == "WeightUnit" then WeightUnitCheck
    else if key == "DimUnit" then DimUnitCheck
    else if key == "Currency" then CurrencyCheck
    else if key == "CustomsDuty" then CustomsDutyCheck
    else if key == "DangerousGoods" then DangerousGoodsCheck
    else if key == "NIVat" then NiVatCheck
    else if key == "EuEori" then EoriCheck
    else if key == "Ioss" then IossCheck
    else if key == "LabelFormat" then LabelFormatCheck
    else NoCheck
  }

  /** The outcome of a key-specific step: the text to store, or the kind of
      the failure raised. */
  datatype Verdict = Accept(text: string) | Reject(kind: ErrorKind)

  /** An allow-list step: accepts a listed code and stores it. */
  function ListVerdict(code: string, allowed: seq<string>): (r: Verdict)
    ensures r.Accept? <==> code in allowed
    ensures r.Accept? ==> r.text == code
    ensures r.Reject? ==> r.kind == NotAllowedValue
  {
    if code in allowed then Accept(code) else Reject(NotAllowedValue)
  }

  /** The key-specific step on a string value that passed its length check. */
  function SpecialVerdict(key: string, value: string, info: ServiceInfo): (r: Verdict)
    ensures r.Reject? ==>
      r.kind == InvalidDate || r.kind == TooLong(false) || r.kind == NotAllowedValue ||
      r.kind == InvalidPattern || r.kind.UnsupportedCountry?
  {
    match KeyCheckOf(key)
    case DateCheck =>
      if IsDate(value) then Accept(value) else Reject(InvalidDate)
    case DisplayIdCheck =>
      if DisplayIdTooLong(info, |value|) then Reject(TooLong(false)) else Accept(value)
    case WeightUnitCheck =>
      if Lower(value) in AllowedWeightUnits then Accept(DefaultWeightUnit) else Reject(NotAllowedValue)
    case DimUnitCheck =>
      if Lower(value) in AllowedDimUnits then Accept(DefaultDimUnit) else Reject(NotAllowedValue)
    case CurrencyCheck =>
      ListVerdict(Upper(value), Currencies)
    case CustomsDutyCheck =>
      ListVerdict(Upper(value), CustomDutyTypes)
    case DangerousGoodsCheck =>
      ListVerdict(Upper(value), DangerousGoodsTypes)
    case NiVatCheck =>
      if NiVatPattern(Compact(value)) then Accept(Compact(value)) else Reject(InvalidPattern)
    case EoriCheck =>
      var u := Compact(value);
      if !EoriPattern(u) then Reject(InvalidPattern)
      else if !CountrySupported(u[..2], info) then Reject(UnsupportedCountry(Upper(u[..2])))
      else Accept(u)
    case IossCheck =>
      var u := Compact(value);
      if !IossPattern(u) then Reject(InvalidPattern)
      else if !CountrySupported(u[2..4], info) then Reject(UnsupportedCountry(Upper(u[2..4])))
      else Accept(u)
    case LabelFormatCheck =>
      ListVerdict(Upper(value), AllowedLabelFormats)
    case NoCheck => Accept(value)
  }

  /** The key-specific step as validateShipment raises it: the failure names
      the row's input. */
  function SpecialCheck(key: string, name: string, value: string, info: ServiceInfo): Result<string> {
    match SpecialVerdict(key, value, info)
    case Accept(t) => Ok(t)
    case Reject(kind) => Err(Failure(kind, name, Plain))
  }

  /** What the key-specific step demands of a value. */
  predicate SpecialAccepted(key: string, value: string, info: ServiceInfo) {
    match KeyCheckOf(key)
    case DateCheck => IsDate(value)
    case DisplayIdCheck => !DisplayIdTooLong(info, |value|)
    case WeightUnitCheck => Lower(value) in AllowedWeightUnits
    case DimUnitCheck => Lower(value) in AllowedDimUnits
    case CurrencyCheck => Upper(value) in Currencies
    case CustomsDutyCheck => Upper(value) in CustomDutyTypes
    case DangerousGoodsCheck => Upper(value) in DangerousGoodsTypes
    case NiVatCheck => NiVatPattern(Compact(value))
    case EoriCheck => EoriPattern(Compact(value)) && CountrySupported(Compact(value)[..2], info)
    case IossCheck => IossPattern(Compact(value)) && CountrySupported(Compact(value)[2..4], info)
    case LabelFormatCheck => Upper(value) in AllowedLabelFormats
    case NoCheck => true
  }

  /** What a string row stores: the unit rows their internal unit, the coded
      rows the upper-cased text, the tax numbers the compacted text, and every
      other row the trimmed text. */
  function Normalised(key: string, value: string): string {
    match KeyCheckOf(key)
    case WeightUnitCheck => DefaultWeightUnit
    case DimUnitCheck => DefaultDimUnit
    case NiVatCheck => Compact(value)
    case EoriCheck => Compact(value)
    case IossCheck => Compact(value)
    case CurrencyCheck => Upper(value)
    case CustomsDutyCheck => Upper(value)
    case DangerousGoodsCheck => Upper(value)
    case LabelFormatCheck => Upper(value)
    case _ => value
  }

  /** The key-specific step passes exactly when its demands hold, and then
      stores the normalised text. */
  lemma SpecialCheckMeaning(key: string, name: string, value: string, info: ServiceInfo)
    ensures SpecialCheck(key, name, value, info).Ok? <==> SpecialAccepted(key, value, info)
    ensures SpecialCheck(key, name, value, info).Ok? ==> SpecialCheck(key, name, value, info).value == Normalised(key, value)
  {
    var u := Compact(value);
    UpperHasNoLower(u);
  }

  /** Compacting a compacted text changes nothing. */
  lemma CompactIdempotent(value: string)
    ensures Compact(Compact(value)) == Compact(value)
  {
    var r := RemoveSpaces(value);
    var u := Compact(value);
    UpperEachChar(r);
    UpperHasNoLower(r);
    forall i | 0 <= i < |u|
      ensures !IsSpace(u[i])
    {
      assert u[i] == UpperChar(r[i]);
    }
    RemoveSpacesOfSpaceFree(u);
  }

  /** The stored form of an accepted text passes the same step again, and
      normalising it once more changes nothing. */
  lemma NormalisedIsStable(key: string, value: string, info: ServiceInfo)
    requires SpecialAccepted(key, value, info)
    ensures SpecialAccepted(key, Normalised(key, value), info)
    ensures Normalised(key, Normalised(key, value)) == Normalised(key, value)
  {
    match KeyCheckOf(key)
    case WeightUnitCheck =>
      assert Lower(DefaultWeightUnit) == DefaultWeightUnit;
    case DimUnitCheck =>
      assert Lower(DefaultDimUnit) == DefaultDimUnit;
    case NiVatCheck =>
      CompactIdempotent(value);
    case EoriCheck =>
      CompactIdempotent(value);
    case IossCheck =>
      CompactIdempotent(value);
    case CurrencyCheck =>
      UpperHasNoLower(value);
    case CustomsDutyCheck =>
      UpperHasNoLower(value);
    case DangerousGoodsCheck =>
      UpperHasNoLower(value);
    case LabelFormatCheck =>
      UpperHasNoLower(value);
    case _ =>
  }

  // ---------------------------------------------------------------------------
  // One field

  /** What a row stores for a non-empty accepted text. Integer rows never
      store anything: they fail. */
  function StoredShipmentValue(rule: FieldRule, text: string): Value {
    match rule.kind
    case StringKind(_) => Str(Normalised(rule.key, text))
    case NumberKind(_, _) => Float(if IsNumeric(text) then NumericValue(text) else 0.0)
    case IntKind(_, _) => Str(text)
  }

  /** Every check the shipment loop makes on one row, as one conjunction. The
      table's minimum and maximum of a number row are not consulted here. */
  predicate ShipmentFieldAccepted(rule: FieldRule, text: string, info: ServiceInfo) {
    (rule.required ==> text != "") &&
    (text != "" ==>
      match rule.kind
      case StringKind(d) =>
        !ExceedsLength(|text|, EffectiveMaxLength(info, rule.key, d)) && SpecialAccepted(rule.key, text, info)
      case IntKind(_, _) => false
      case NumberKind(_, _) => IsNumeric(text))
  }

  /** One iteration of the validateShipment loop: the failure it raises, or the
      value it stores (None when the trimmed text is empty). */
  function CheckShipmentField(rule: FieldRule, raw: RawRecord, info: ServiceInfo): Result<Option<Value>> {
    var value := RawText(raw, rule.name);
    if rule.required && value == "" then Err(Failure(MissingRequired, rule.name, Plain))
    else if value == "" then Ok(None)
    else match rule.kind
      case StringKind(d) =>
        if ExceedsLength(|value|, EffectiveMaxLength(info, rule.key, d)) then Err(Failure(TooLong(false), rule.name, Plain))
        else (match SpecialCheck(rule.key, rule.name, value, info)
          case Ok(s) => Ok(Some(Str(s)))
          case Err(f) => Err(f))
      case IntKind(_, _) => Err(Failure(ApplicationError, "", Plain))
      case NumberKind(_, _) =>
        if !IsNumeric(value) then Err(Failure(NotNumber, rule.name, Plain))
        else Ok(Some(Float(NumericValue(value))))
  }

  /** One row passes exactly when it meets every check. */
  lemma CheckShipmentFieldAccepts(rule: FieldRule, raw: RawRecord, info: ServiceInfo)
    ensures CheckShipmentField(rule, raw, info).Ok? <==> ShipmentFieldAccepted(rule, RawText(raw, rule.name), info)
  {
    SpecialCheckMeaning(rule.key, rule.name, RawText(raw, rule.name), info);
  }

  /** A passing row stores nothing for empty text and its stored value otherwise. */
  lemma CheckShipmentFieldStores(rule: FieldRule, raw: RawRecord, info: ServiceInfo)
    ensures var r := CheckShipmentField(rule, raw, info);
      var text := RawText(raw, rule.name);
      r.Ok? ==> r.value == if text == "" then None else Some(StoredShipmentValue(rule, text))
  {
    SpecialCheckMeaning(rule.key, rule.name, RawText(raw, rule.name), info);
  }

  /** A required row is missing only when its trimmed text is the empty string:
      "0" is present. */
  lemma CheckShipmentFieldMissing(rule: FieldRule, raw: RawRecord, info: ServiceInfo)
    ensures CheckShipmentField(rule, raw, info) == Err(Failure(MissingRequired, rule.name, Plain))
      <==> rule.required && RawText(raw, rule.name) == ""
  {
  }

  /** Failures carry no product prefix; an integer row is an application error
      (500) naming no field, and every other failure a client error naming the
      row's input. */
  lemma CheckShipmentFieldFailure(rule: FieldRule, raw: RawRecord, info: ServiceInfo)
    requires CheckShipmentField(rule, raw, info).Err?
    ensures var f := CheckShipmentField(rule, raw, info).failure;
      f.prefix == Plain && f.kind != TooLong(true) &&
      (Code(f) == 500 <==> rule.kind.IntKind? && RawText(raw, rule.name) != "") &&
      (Code(f) == 400 ==> f.field == rule.name)
  {
  }

  /** An integer row with text is an application error, whatever the text. */
  lemma IntRowsAreApplicationErrors(rule: FieldRule, raw: RawRecord, info: ServiceInfo)
    requires rule.kind.IntKind? && RawText(raw, rule.name) != ""
    ensures CheckShipmentField(rule, raw, info) == Err(Failure(ApplicationError, "", Plain))
    ensures Code(CheckShipmentField(rule, raw, info).failure) == 500
  {
  }

  /** Without a service limit the display id is capped at 15 characters,
      although its row allows 255. */
  lemma DisplayIdCappedAt15(raw: RawRecord, info: ServiceInfo)
    requires "DisplayId" !in info.fieldLimits && 15 < |RawText(raw, "display_id")| <= 255
    ensures CheckShipmentField(ShipmentFields()[3], raw, info) == Err(Failure(TooLong(false), "display_id", Plain))
  {
    var f := ShipmentFields();
    assert f[3] == FieldRule("DisplayId", "display_id", false, StringKind(255));
    assert KeyCheckOf("DisplayId") == DisplayIdCheck;
  }

  /** Compacting removes every white-space character, so the `\S+` part of
      the EORI pattern always holds: only the two leading letters and the
      length are checked. */
  lemma EoriPatternAfterCompact(value: string)
    ensures var u := Compact(value);
      EoriPattern(u) <==> |u| >= 3 && IsUpperLetter(u[0]) && IsUpperLetter(u[1])
  {
    var r := RemoveSpaces(value);
    UpperEachChar(r);
    forall i | 0 <= i < |Compact(value)|
      ensures !IsSpace(Compact(value)[i])
    {
      assert Compact(value)[i] == UpperChar(r[i]);
    }
  }

  // ---------------------------------------------------------------------------
  // The unit fields

  /** The unit fields after a row that stored a value: the weight-unit row
      writes its lower-cased text to weightUnit, the dimension-unit row to
      dimUnit, and every other row leaves them. */
  function UnitsAfter(rule: FieldRule, text: string, u: Units): Units {
    if rule.kind.StringKind? then UnitsWritten(rule.key, text, u) else u
  }

  /** The unit fields after the key-specific step of a string row passed. */
  function UnitsWritten(key: string, text: string, u: Units): Units {
    match KeyCheckOf(key)
    case WeightUnitCheck => Units(Lower(text), u.dim)
    case DimUnitCheck => Units(u.weight, Lower(text))
    case _ => u
  }

  /** Only the two unit keys select the unit steps. */
  lemma KeyCheckOfUnits(key: string)
    ensures KeyCheckOf(key) == WeightUnitCheck <==> key == "WeightUnit"
    ensures KeyCheckOf(key) == DimUnitCheck <==> key == "DimUnit"
  {
  }

  // ---------------------------------------------------------------------------
  // The validateShipment loop

  /** What a run over the table leaves: its result, and the unit fields as the
      run leaves them, also when it fails. */
  datatype Pass = Pass(result: Result<Record>, units: Units)

  /** The check after the loop: a value or a shipment value must be present. */
  function ValueCheck(r: Record): Result<Record> {
    if !Has(r, "ShipmentValue") && !Has(r, "Value") then Err(Failure(MissingValueField, "", Plain)) else Ok(r)
  }

  /** The loop from row k on, with the unit fields and the record built so far. */
  function ShipmentFrom(fields: seq<FieldRule>, k: nat, raw: RawRecord, info: ServiceInfo, u: Units, acc: Record): Pass
    requires k <= |fields|
    decreases |fields| - k
  {
    if k == |fields| then Pass(ValueCheck(acc), u)
    else match CheckShipmentField(fields[k], raw, info)
      case Err(f) => Pass(Err(f), u)
      case Ok(None) => ShipmentFrom(fields, k + 1, raw, info, u, acc)
      case Ok(Some(v)) =>
        ShipmentFrom(fields, k + 1, raw, info, UnitsAfter(fields[k], RawText(raw, fields[k].name), u),
                     Put(acc, fields[k].key, v))
  }

  /** One pass of the validateShipment loop body, in the order the loop checks.
      The key tests are exclusive, so the chain of `if`s is an `else if` chain. */
  method ValidateShipmentField(v: Validator, field: FieldRule, shipment: RawRecord, info: ServiceInfo)
    returns (r: Result<Option<Value>>)
    modifies v
    ensures r == CheckShipmentField(field, shipment, info)
    ensures v.State() == if r.Ok? && r.value.Some? then UnitsAfter(field, RawText(shipment, field.name), old(v.State()))
      else old(v.State())
  {
    var text := RawText(shipment, field.name);
    if field.required && text == "" {
      return Err(Failure(MissingRequired, field.name, Plain));
    }
    if text == "" {
      return Ok(None);
    }
    match field.kind {
      case StringKind(defaultLength) =>
        if ExceedsLength(|text|, EffectiveMaxLength(info, field.key, defaultLength)) {
          return Err(Failure(TooLong(false), field.name, Plain));
        }
      case NumberKind(_, _) =>
        if !IsNumeric(text) {
          return Err(Failure(NotNumber, field.name, Plain));
        }
        return Ok(Some(Float(NumericValue(text))));
      case IntKind(_, _) =>
        return Err(Failure(ApplicationError, "", Plain));
    }
    var value := SpecialStep(v, field.key, field.name, text, info);
    if value.Err? {
      return Err(value.failure);
    }
    return Ok(Some(Str(value.value)));
  }

  /** The key-specific tests of the loop body on a string value; the unit rows
      write the validator's unit fields. */
  method SpecialStep(v: Validator, key: string, name: string, text: string, info: ServiceInfo)
    returns (r: Result<string>)
    modifies v
    ensures r == SpecialCheck(key, name, text, info)
    ensures v.State() == if r.Ok? then UnitsWritten(key, text, old(v.State()))
      else old(v.State())
  {
    var value := text;
    if key == "OrderDate" {
      if !IsDate(value) {
        return Err(Failure(InvalidDate, name, Plain));
      }
    } else if key == "DisplayId" {
      if DisplayIdTooLong(info, |value|) {
        return Err(Failure(TooLong(false), name, Plain));
      }
    } else if key == "WeightUnit" || key == "DimUnit" {
      r := UnitStep(v, key, name, text);
      return;
    } else if key == "Currency" {
      var upper := Upper(value);
      if upper !in Currencies {
        return Err(Failure(NotAllowedValue, name, Plain));
      }
      value := upper;
    } else if key == "CustomsDuty" {
      var upper := Upper(value);
      if upper !in CustomDutyTypes {
        return Err(Failure(NotAllowedValue, name, Plain));
      }
      value := upper;
    } else if key == "DangerousGoods" {
      var upper := Upper(value);
      if upper !in DangerousGoodsTypes {
        return Err(Failure(NotAllowedValue, name, Plain));
      }
      value := upper;
    } else if key == "NIVat" || key == "EuEori" || key == "Ioss" {
      r := TaxNumberStep(key, name, text, info);
      return;
    } else if key == "LabelFormat" {
      var upper := Upper(value);
      if upper !in AllowedLabelFormats {
        return Err(Failure(NotAllowedValue, name, Plain));
      }
      value := upper;
    }
    return Ok(value);
  }

  /** The weight-unit and dimension-unit steps: each writes its unit field and
      stores the internal unit. */
  method UnitStep(v: Validator, key: string, name: string, text: string) returns (r: Result<string>)
    requires key == "WeightUnit" || key == "DimUnit"
    modifies v
    ensures forall info :: r == SpecialCheck(key, name, text, info)
    ensures v.State() == if r.Ok? then UnitsWritten(key, text, old(v.State())) else old(v.State())
  {
    if key == "WeightUnit" {
      var lower := Lower(text);
      if lower !in AllowedWeightUnits {
        return Err(Failure(NotAllowedValue, name, Plain));
      }
      v.weightUnit := lower;
      return Ok(DefaultWeightUnit);
    } else {
      var lower := Lower(text);
      if lower !in AllowedDimUnits {
        return Err(Failure(NotAllowedValue, name, Plain));
      }
      v.dimUnit := lower;
      return Ok(DefaultDimUnit);
    }
  }

  /** The NI VAT, EORI and IOSS steps: compact, match the pattern, and check
      the embedded country code when the supported list is an array. */
  method TaxNumberStep(key: string, name: string, text: string, info: ServiceInfo) returns (r: Result<string>)
    requires key == "NIVat" || key == "EuEori" || key == "Ioss"
    ensures r == SpecialCheck(key, name, text, info)
    ensures r.Ok? <==> SpecialAccepted(key, text, info)
    ensures r.Ok? ==> r.value == Compact(text)
    ensures r.Err? ==> r.failure.field == name && (r.failure.kind == InvalidPattern || r.failure.kind.UnsupportedCountry?)
  {
    SpecialCheckMeaning(key, name, text, info);
    if key == "NIVat" {
      var upper := Upper(RemoveSpaces(text));
      if !NiVatPattern(upper) {
        return Err(Failure(InvalidPattern, name, Plain));
      }
      return Ok(upper);
    } else if key == "EuEori" {
      var upper := Upper(RemoveSpaces(text));
      if !EoriPattern(upper) {
        return Err(Failure(InvalidPattern, name, Plain));
      }
      var available := AvailableCountries(info);
      if available.Some? {
        var checked := ValidateCountryCode(upper[..2], available.value, name);
        if checked.Err? {
          return Err(checked.failure);
        }
      }
      return Ok(upper);
    } else {
      var upper := Upper(RemoveSpaces(text));
      if !IossPattern(upper) {
        return Err(Failure(InvalidPattern, name, Plain));
      }
      var available := AvailableCountries(info);
      if available.Some? {
        var checked := ValidateCountryCode(upper[2..4], available.value, name);
        if checked.Err? {
          return Err(checked.failure);
        }
      }
      return Ok(upper);
    }
  }

  /** validateShipment: checks the rows in table order, stops at the first
      failure, and otherwise requires a value or a shipment value. The unit
      fields keep whatever the rows before a failure wrote. */
  method ValidateShipmentFields(v: Validator, fields: seq<FieldRule>, shipment: RawRecord, info: ServiceInfo)
    returns (r: Result<Record>)
    modifies v
    ensures Pass(r, v.State()) == ShipmentFrom(fields, 0, shipment, info, old(v.State()), [])
  {
    var result: Record := [];
    var k := 0;
    while k < |fields|
      invariant k <= |fields|
      invariant ShipmentFrom(fields, 0, shipment, info, old(v.State()), []) ==
        ShipmentFrom(fields, k, shipment, info, v.State(), result)
    {
      ghost var before := v.State();
      var checked := ValidateShipmentField(v, fields[k], shipment, info);
      if checked.Err? {
        ShipmentFromStop(fields, k, shipment, info, before, result);
        return Err(checked.failure);
      }
      if checked.value.Some? {
        ShipmentFromStore(fields, k, shipment, info, before, result, checked.value.value);
        result := Put(result, fields[k].key, checked.value.value);
      } else {
        ShipmentFromSkip(fields, k, shipment, info, before, result);
      }
      k := k + 1;
    }
    if !Has(result, "ShipmentValue") && !Has(result, "Value") {
      return Err(Failure(MissingValueField, "", Plain));
    }
    return Ok(result);
  }

  lemma ShipmentFromStop(fields: seq<FieldRule>, k: nat, raw: RawRecord, info: ServiceInfo, u: Units, acc: Record)
    requires k < |fields| && CheckShipmentField(fields[k], raw, info).Err?
    ensures ShipmentFrom(fields, k, raw, info, u, acc) == Pass(Err(CheckShipmentField(fields[k], raw, info).failure), u)
  {
  }

  lemma ShipmentFromSkip(fields: seq<FieldRule>, k: nat, raw: RawRecord, info: ServiceInfo, u: Units, acc: Record)
    requires k < |fields| && CheckShipmentField(fields[k], raw, info) == Ok(None)
    ensures ShipmentFrom(fields, k, raw, info, u, acc) == ShipmentFrom(fields, k + 1, raw, info, u, acc)
  {
  }

  lemma ShipmentFromStore(fields: seq<FieldRule>, k: nat, raw: RawRecord, info: ServiceInfo, u: Units,
                          acc: Record, v: Value)
    requires k < |fields| && CheckShipmentField(fields[k], raw, info) == Ok(Some(v))
    ensures ShipmentFrom(fields, k, raw, info, u, acc) ==
      ShipmentFrom(fields, k + 1, raw, info, UnitsAfter(fields[k], RawText(raw, fields[k].name), u),
                   Put(acc, fields[k].key, v))
  {
  }

  // ---------------------------------------------------------------------------
  // What the loop does to the unit fields

  /** The unit fields after the loop from row k on, up to the first failing row. */
  function UnitsFrom(fields: seq<FieldRule>, k: nat, raw: RawRecord, info: ServiceInfo, u: Units): Units
    requires k <= |fields|
    decreases |fields| - k
  {
    if k == |fields| then u
    else match CheckShipmentField(fields[k], raw, info)
      case Err(_) => u
      case Ok(None) => UnitsFrom(fields, k + 1, raw, info, u)
      case Ok(Some(_)) => UnitsFrom(fields, k + 1, raw, info, UnitsAfter(fields[k], RawText(raw, fields[k].name), u))
  }

  /** The loop reports the failure of the first row that fails, with the unit
      fields the rows before it wrote: when row j fails and rows k to j-1
      pass, the run from row k ends with row j's failure. */
  lemma {:induction false} ShipmentFromFirstFailure(fields: seq<FieldRule>, k: nat, raw: RawRecord, info: ServiceInfo,
                                                    u: Units, acc: Record, j: nat)
    requires k <= j < |fields| && CheckShipmentField(fields[j], raw, info).Err?
    requires forall i :: k <= i < j ==> CheckShipmentField(fields[i], raw, info).Ok?
    ensures ShipmentFrom(fields, k, raw, info, u, acc) ==
      Pass(Err(CheckShipmentField(fields[j], raw, info).failure), UnitsFrom(fields, k, raw, info, u))
    decreases j - k
  {
    if k < j {
      var c := CheckShipmentField(fields[k], raw, info);
      var u' := if c.value.Some? then UnitsAfter(fields[k], RawText(raw, fields[k].name), u) else u;
      var acc' := if c.value.Some? then Put(acc, fields[k].key, c.value.value) else acc;
      assert ShipmentFrom(fields, k, raw, info, u, acc) == ShipmentFrom(fields, k + 1, raw, info, u', acc');
      assert UnitsFrom(fields, k, raw, info, u) == UnitsFrom(fields, k + 1, raw, info, u');
      ShipmentFromFirstFailure(fields, k + 1, raw, info, u', acc', j);
    }
  }

  /** The unit fields a run leaves do not depend on the record it builds. */
  lemma {:induction false} ShipmentFromUnits(fields: seq<FieldRule>, k: nat, raw: RawRecord, info: ServiceInfo,
                                             u: Units, acc: Record)
    requires k <= |fields|
    ensures ShipmentFrom(fields, k, raw, info, u, acc).units == UnitsFrom(fields, k, raw, info, u)
    decreases |fields| - k
  {
    if k < |fields| {
      match CheckShipmentField(fields[k], raw, info)
      case Err(_) =>
      case Ok(None) =>
        ShipmentFromUnits(fields, k + 1, raw, info, u, acc);
      case Ok(Some(v)) =>
        ShipmentFromUnits(fields, k + 1, raw, info, UnitsAfter(fields[k], RawText(raw, fields[k].name), u),
                          Put(acc, fields[k].key, v));
    }
  }

  /** A unit row that passes stores an allowed unit. */
  lemma UnitsAfterValid(rule: FieldRule, raw: RawRecord, info: ServiceInfo, u: Units)
    requires UnitsValid(u) && CheckShipmentField(rule, raw, info).Ok? && CheckShipmentField(rule, raw, info).value.Some?
    ensures UnitsValid(UnitsAfter(rule, RawText(raw, rule.name), u))
  {
    SpecialCheckMeaning(rule.key, rule.name, RawText(raw, rule.name), info);
  }

  /** The loop only ever stores allowed units. */
  lemma {:induction false} UnitsFromValid(fields: seq<FieldRule>, k: nat, raw: RawRecord, info: ServiceInfo, u: Units)
    requires k <= |fields| && UnitsValid(u)
    ensures UnitsValid(UnitsFrom(fields, k, raw, info, u))
    decreases |fields| - k
  {
    if k < |fields| && CheckShipmentField(fields[k], raw, info).Ok? {
      if CheckShipmentField(fields[k], raw, info).value.Some? {
        UnitsAfterValid(fields[k], raw, info, u);
        UnitsFromValid(fields, k + 1, raw, info, UnitsAfter(fields[k], RawText(raw, fields[k].name), u));
      } else {
        UnitsFromValid(fields, k + 1, raw, info, u);
      }
    }
  }

  /** The weight unit changes only through a row with the weight-unit key and
      text: without one, a run leaves it as it was. */
  lemma {:induction false} WeightUnitUntouched(fields: seq<FieldRule>, k: nat, raw: RawRecord, info: ServiceInfo, u: Units)
    requires k <= |fields|
    requires forall j :: k <= j < |fields| && fields[j].key == "WeightUnit" ==> RawText(raw, fields[j].name) == ""
    ensures UnitsFrom(fields, k, raw, info, u).weight == u.weight
    decreases |fields| - k
  {
    if k < |fields| {
      match CheckShipmentField(fields[k], raw, info)
      case Err(_) =>
      case Ok(None) =>
        WeightUnitUntouched(fields, k + 1, raw, info, u);
      case Ok(Some(_)) =>
        KeyCheckOfUnits(fields[k].key);
        var u' := UnitsAfter(fields[k], RawText(raw, fields[k].name), u);
        assert u'.weight == u.weight;
        WeightUnitUntouched(fields, k + 1, raw, info, u');
    }
  }

  /** The dimension unit changes only through a row with the dimension-unit key
      and text: without one, a run leaves it as it was. */
  lemma {:induction false} DimUnitUntouched(fields: seq<FieldRule>, k: nat, raw: RawRecord, info: ServiceInfo, u: Units)
    requires k <= |fields|
    requires forall j :: k <= j < |fields| && fields[j].key == "DimUnit" ==> RawText(raw, fields[j].name) == ""
    ensures UnitsFrom(fields, k, raw, info, u).dim == u.dim
    decreases |fields| - k
  {
    if k < |fields| {
      match CheckShipmentField(fields[k], raw, info)
      case Err(_) =>
      case Ok(None) =>
        DimUnitUntouched(fields, k + 1, raw, info, u);
      case Ok(Some(_)) =>
        KeyCheckOfUnits(fields[k].key);
        var u' := UnitsAfter(fields[k], RawText(raw, fields[k].name), u);
        assert u'.dim == u.dim;
        DimUnitUntouched(fields, k + 1, raw, info, u');
    }
  }

  /** A unit row that passed with text decides its unit field for good, even if
      a later row fails: no later row writes that field. */
  lemma {:induction false} UnitWritePersists(fields: seq<FieldRule>, k: nat, j: nat, raw: RawRecord, info: ServiceInfo,
                                             u: Units)
    requires k <= j < |fields| && DistinctKeys(fields)
    requires forall i :: k <= i < j ==> CheckShipmentField(fields[i], raw, info).Ok?
    requires CheckShipmentField(fields[j], raw, info).Ok? && RawText(raw, fields[j].name) != ""
    requires fields[j].kind.StringKind?
    ensures fields[j].key == "WeightUnit" ==> UnitsFrom(fields, k, raw, info, u).weight == Lower(RawText(raw, fields[j].name))
    ensures fields[j].key == "DimUnit" ==> UnitsFrom(fields, k, raw, info, u).dim == Lower(RawText(raw, fields[j].name))
    decreases j - k
  {
    CheckShipmentFieldStores(fields[k], raw, info);
    var u' := if RawText(raw, fields[k].name) == "" then u else UnitsAfter(fields[k], RawText(raw, fields[k].name), u);
    assert UnitsFrom(fields, k, raw, info, u) == UnitsFrom(fields, k + 1, raw, info, u');
    if k < j {
      UnitWritePersists(fields, k + 1, j, raw, info, u');
    } else {
      KeyCheckOfUnits(fields[j].key);
      if fields[j].key == "WeightUnit" {
        WeightUnitUntouched(fields, k + 1, raw, info, u');
      } else if fields[j].key == "DimUnit" {
        DimUnitUntouched(fields, k + 1, raw, info, u');
      }
    }
  }

  // ---------------------------------------------------------------------------
  // What the loop stores

  /** Every row from k on passes its checks. */
  predicate RowsAccepted(fields: seq<FieldRule>, k: nat, raw: RawRecord, info: ServiceInfo) {
    forall j :: k <= j < |fields| ==> ShipmentFieldAccepted(fields[j], RawText(raw, fields[j].name), info)
  }

  /** A run that succeeds passed every row from k on. */
  lemma {:induction false} ShipmentFromAccepted(fields: seq<FieldRule>, k: nat, raw: RawRecord, info: ServiceInfo,
                                                u: Units, acc: Record)
    requires k <= |fields|
    ensures ShipmentFrom(fields, k, raw, info, u, acc).result.Ok? ==> RowsAccepted(fields, k, raw, info)
    decreases |fields| - k
  {
    if k < |fields| {
      var c := CheckShipmentField(fields[k], raw, info);
      CheckShipmentFieldAccepts(fields[k], raw, info);
      if c.Ok? {
        var u' := if c.value.Some? then UnitsAfter(fields[k], RawText(raw, fields[k].name), u) else u;
        var acc' := if c.value.Some? then Put(acc, fields[k].key, c.value.value) else acc;
        ShipmentFromAccepted(fields, k + 1, raw, info, u', acc');
      }
    }
  }

  /** What a passing run stores, from row k on: one entry per row whose trimmed
      text is not empty, in table order. */
  function ShipmentProjection(fields: seq<FieldRule>, k: nat, raw: RawRecord): Record
    requires k <= |fields|
    decreases |fields| - k
  {
    if k == |fields| then []
    else
      var text := RawText(raw, fields[k].name);
      (if text == "" then [] else [Entry(fields[k].key, StoredShipmentValue(fields[k], text))]) +
      ShipmentProjection(fields, k + 1, raw)
  }

  lemma StoreStep(fields: seq<FieldRule>, k: nat, raw: RawRecord, info: ServiceInfo, u: Units, acc: Record, v: Value)
    requires k < |fields| && DistinctKeys(fields)
    requires forall j :: k <= j < |fields| ==> !Has(acc, fields[j].key)
    requires CheckShipmentField(fields[k], raw, info) == Ok(Some(v))
    requires RawText(raw, fields[k].name) != "" && v == StoredShipmentValue(fields[k], RawText(raw, fields[k].name))
    ensures ShipmentFrom(fields, k, raw, info, u, acc) ==
      ShipmentFrom(fields, k + 1, raw, info, UnitsAfter(fields[k], RawText(raw, fields[k].name), u),
                   acc + [Entry(fields[k].key, v)])
    ensures ShipmentProjection(fields, k, raw) == [Entry(fields[k].key, v)] + ShipmentProjection(fields, k + 1, raw)
    ensures forall j :: k + 1 <= j < |fields| ==> !Has(acc + [Entry(fields[k].key, v)], fields[j].key)
  {
    ShipmentFromStore(fields, k, raw, info, u, acc, v);
    LaterKeysStayFresh(fields, k, acc, v);
  }

  /** Over a table with distinct keys, a run whose rows all pass returns the
      value check of the projection. */
  lemma {:induction false} ShipmentFromResult(fields: seq<FieldRule>, k: nat, raw: RawRecord, info: ServiceInfo,
                                              u: Units, acc: Record)
    requires k <= |fields| && DistinctKeys(fields)
    requires forall j :: k <= j < |fields| ==> !Has(acc, fields[j].key)
    requires RowsAccepted(fields, k, raw, info)
    ensures ShipmentFrom(fields, k, raw, info, u, acc).result == ValueCheck(acc + ShipmentProjection(fields, k, raw))
    decreases |fields| - k
  {
    if k == |fields| {
      assert acc + [] == acc;
    } else {
      var c := CheckShipmentField(fields[k], raw, info);
      CheckShipmentFieldAccepts(fields[k], raw, info);
      CheckShipmentFieldStores(fields[k], raw, info);
      if c.value.Some? {
        var e := Entry(fields[k].key, c.value.value);
        var u' := UnitsAfter(fields[k], RawText(raw, fields[k].name), u);
        StoreStep(fields, k, raw, info, u, acc, c.value.value);
        ShipmentFromResult(fields, k + 1, raw, info, u', acc + [e]);
        AppendAssoc(acc, e, ShipmentProjection(fields, k + 1, raw));
      } else {
        assert ShipmentProjection(fields, k, raw) == ShipmentProjection(fields, k + 1, raw);
        ShipmentFromSkip(fields, k, raw, info, u, acc);
        ShipmentFromResult(fields, k + 1, raw, info, u, acc);
      }
    }
  }

  /** The projection from row k on holds only keys of rows k onwards. */
  lemma {:induction false} ShipmentProjectionKeys(fields: seq<FieldRule>, k: nat, raw: RawRecord)
    requires k <= |fields|
    ensures forall key :: key in Keys(ShipmentProjection(fields, k, raw)) ==>
      exists j :: k <= j < |fields| && fields[j].key == key && RawText(raw, fields[j].name) != ""
    decreases |fields| - k
  {
    if k < |fields| {
      ShipmentProjectionKeys(fields, k + 1, raw);
      var text := RawText(raw, fields[k].name);
      var head: Record := if text == "" then [] else [Entry(fields[k].key, StoredShipmentValue(fields[k], text))];
      assert ShipmentProjection(fields, k, raw) == head + ShipmentProjection(fields, k + 1, raw);
      KeysConcat(head, ShipmentProjection(fields, k + 1, raw));
    }
  }

  /** The projection holds row j's stored value under row j's key, and nothing
      under it when row j's text is empty. */
  lemma {:induction false} FindInShipmentProjection(fields: seq<FieldRule>, k: nat, raw: RawRecord, j: nat)
    requires k <= j < |fields| && DistinctKeys(fields)
    ensures var text := RawText(raw, fields[j].name);
      Find(ShipmentProjection(fields, k, raw), fields[j].key) ==
        if text == "" then None else Some(StoredShipmentValue(fields[j], text))
    decreases |fields| - k
  {
    var text := RawText(raw, fields[k].name);
    var rest := ShipmentProjection(fields, k + 1, raw);
    var p := ShipmentProjection(fields, k, raw);
    if text == "" {
      assert p == rest;
      if j > k {
        FindInShipmentProjection(fields, k + 1, raw, j);
      } else {
        ShipmentProjectionKeys(fields, k + 1, raw);
        assert !Has(rest, fields[k].key);
      }
    } else {
      assert p[0] == Entry(fields[k].key, StoredShipmentValue(fields[k], text)) && p[1..] == rest;
      if j > k {
        assert fields[k].key != fields[j].key;
        FindInShipmentProjection(fields, k + 1, raw, j);
      }
    }
  }

  /** validateShipment succeeds iff every row passes and the projection holds a
      value or a shipment value, and then returns the projection. */
  lemma ShipmentFieldsOutcome(fields: seq<FieldRule>, raw: RawRecord, info: ServiceInfo, u: Units)
    requires DistinctKeys(fields)
    ensures ShipmentFrom(fields, 0, raw, info, u, []).result.Ok? <==>
      RowsAccepted(fields, 0, raw, info) && ValueCheck(ShipmentProjection(fields, 0, raw)).Ok?
    ensures ShipmentFrom(fields, 0, raw, info, u, []).result.Ok? ==>
      ShipmentFrom(fields, 0, raw, info, u, []).result.value == ShipmentProjection(fields, 0, raw)
  {
    ShipmentFromAccepted(fields, 0, raw, info, u, []);
    if RowsAccepted(fields, 0, raw, info) {
      ShipmentFromResult(fields, 0, raw, info, u, []);
      assert [] + ShipmentProjection(fields, 0, raw) == ShipmentProjection(fields, 0, raw);
    }
  }

  // ---------------------------------------------------------------------------
  // shipment(): dimensions and weight

  /** `(int) isset(Length) + (int) isset(Width) + (int) isset(Height)`. */
  function DimCount(r: Record): (n: nat)
    ensures n <= 3
    ensures n == 0 <==> !Has(r, "Length") && !Has(r, "Width") && !Has(r, "Height")
    ensures n == 3 <==> Has(r, "Length") && Has(r, "Width") && Has(r, "Height")
  {
    (if Has(r, "Length") then 1 else 0) + (if Has(r, "Width") then 1 else 0) + (if Has(r, "Height") then 1 else 0)
  }

  /** The range checks on the converted dimensions, then the girth check, in
      the order shipment() makes them. */
  function DimensionCheck(l: real, w: real, h: real): Option<Failure> {
    if l < MinMeasure || l > MaxShipmentLength then Some(Failure(DimensionOutOfRange, "length", Plain))
    else if w < MinMeasure || w > MaxShipmentWidth then Some(Failure(DimensionOutOfRange, "width", Plain))
    else if h < MinMeasure || h > MaxShipmentHeight then Some(Failure(DimensionOutOfRange, "height", Plain))
    else if l + 2.0 * (w + h) > MaxShipmentDimension then Some(Failure(DimensionSumExceeded, "", Plain))
    else None
  }

  /** Dimensions, in cm, a parcel may have: each within its row's range and
      length plus girth at most 300. */
  predicate DimensionsFit(l: real, w: real, h: real) {
    MinMeasure <= l <= MaxShipmentLength && MinMeasure <= w <= MaxShipmentWidth &&
    MinMeasure <= h <= MaxShipmentHeight && l + 2.0 * (w + h) <= MaxShipmentDimension
  }

  /** A dimension of the validated record, converted to cm. */
  function DimensionCm(r: Record, key: string, u: Units): real {
    CmLength(FloatOf(Find(r, key)), u.dim)
  }

  /** The validated weight, converted to kg. */
  function WeightKg(r: Record, u: Units): real {
    KgWeight(FloatOf(Find(r, "Weight")), u.weight)
  }

  /** The dimensions written back in cm (when all three are given). */
  function WithDimensionsCm(r: Record, u: Units): Record {
    Put(Put(Put(r, "Length", Float(DimensionCm(r, "Length", u))),
        "Width", Float(DimensionCm(r, "Width", u))),
        "Height", Float(DimensionCm(r, "Height", u)))
  }

  /** The dimension step of shipment(): one or two dimensions fail; three are
      converted to cm, checked and written back; none leave the record as it is. */
  function DimensionStep(r: Record, u: Units): Result<Record> {
    var dim := DimCount(r);
    if dim == 1 || dim == 2 then Err(Failure(IncompleteDimensions, "", Plain))
    else if dim == 0 then Ok(r)
    else
      match DimensionCheck(DimensionCm(r, "Length", u), DimensionCm(r, "Width", u), DimensionCm(r, "Height", u))
      case Some(f) => Err(f)
      case None => Ok(WithDimensionsCm(r, u))
  }

  /** The weight step of shipment(): the weight converted to kg must lie
      between the row's minimum and the service's maximum, and is written back. */
  function WeightStep(r: Record, u: Units, info: ServiceInfo): Result<Record> {
    var weight := WeightKg(r, u);
    if weight > MaxWeightOf(info) || weight < MinMeasure then Err(Failure(WeightOutOfRange, "weight", Plain))
    else Ok(Put(r, "Weight", Float(weight)))
  }

  /** What shipment() does after validateShipment, under the unit fields that
      validateShipment left. */
  function FinishShipment(r: Record, u: Units, info: ServiceInfo): Result<Record> {
    match DimensionStep(r, u)
    case Err(f) => Err(f)
    case Ok(sized) => WeightStep(sized, u, info)
  }

  /** A table run, then the dimension and weight steps. */
  function ShipmentRun(fields: seq<FieldRule>, raw: RawRecord, info: ServiceInfo, u: Units): Pass {
    var p := ShipmentFrom(fields, 0, raw, info, u, []);
    if p.result.Err? then p else Pass(FinishShipment(p.result.value, p.units, info), p.units)
  }

  /** shipment(): the shipment table, then the dimension and weight steps. */
  function ShipmentSpec(raw: RawRecord, info: ServiceInfo, u: Units): Pass {
    ShipmentRun(ShipmentFields(), raw, info, u)
  }

  /** The dimension part of shipment(), reading the validator's dimension unit. */
  method DimensionSteps(v: Validator, validated: Record) returns (r: Result<Record>)
    ensures r == DimensionStep(validated, v.State())
    ensures var n := DimCount(validated);
      r.Ok? <==>
        n != 1 && n != 2 &&
        (n == 3 ==> DimensionsFit(DimensionCm(validated, "Length", v.State()), DimensionCm(validated, "Width", v.State()),
                                  DimensionCm(validated, "Height", v.State())))
    ensures r.Ok? ==> Find(r.value, "Weight") == Find(validated, "Weight")
    ensures r.Err? ==>
      r.failure.prefix == Plain &&
      (r.failure.kind == IncompleteDimensions || r.failure.kind == DimensionOutOfRange || r.failure.kind == DimensionSumExceeded)
  {
    var result := validated;
    var dim := DimCount(result);
    if dim == 1 || dim == 2 {
      r := Err(Failure(IncompleteDimensions, "", Plain));
    } else if dim == 3 {
      var dimUnit := v.dimUnit;
      var length := FloatOf(Find(result, "Length"));
      var width := FloatOf(Find(result, "Width"));
      var height := FloatOf(Find(result, "Height"));
      if dimUnit == "in" {
        length := Round2(length * InchToCm);
        width := Round2(width * InchToCm);
        height := Round2(height * InchToCm);
      }
      assert length == DimensionCm(validated, "Length", v.State());
      assert width == DimensionCm(validated, "Width", v.State());
      assert height == DimensionCm(validated, "Height", v.State());
      result := Put(Put(Put(result, "Length", Float(length)), "Width", Float(width)), "Height", Float(height));
      assert result == WithDimensionsCm(validated, v.State());
      var failure := CheckDimensions(length, width, height);
      r := if failure.Some? then Err(failure.value) else Ok(result);
    } else {
      r := Ok(result);
    }
    assert r == DimensionStep(validated, v.State());
    DimensionStepOutcome(validated, v.State());
  }

  /** The range checks, then the girth check, on dimensions in cm. */
  method CheckDimensions(length: real, width: real, height: real) returns (failure: Option<Failure>)
    ensures failure == DimensionCheck(length, width, height)
    ensures failure.None? <==> DimensionsFit(length, width, height)
    ensures failure.Some? ==>
      failure.value.kind == DimensionOutOfRange || failure.value.kind == DimensionSumExceeded
  {
    DimensionCheckFits(length, width, height);
    if length < MinMeasure || length > MaxShipmentLength {
      return Some(Failure(DimensionOutOfRange, "length", Plain));
    }
    if width < MinMeasure || width > MaxShipmentWidth {
      return Some(Failure(DimensionOutOfRange, "width", Plain));
    }
    if height < MinMeasure || height > MaxShipmentHeight {
      return Some(Failure(DimensionOutOfRange, "height", Plain));
    }
    if length + 2.0 * (width + height) > MaxShipmentDimension {
      return Some(Failure(DimensionSumExceeded, "", Plain));
    }
    return None;
  }

  /** The weight part of shipment(), reading the validator's weight unit. */
  method WeightSteps(v: Validator, sized: Record, info: ServiceInfo) returns (r: Result<Record>)
    ensures r == WeightStep(sized, v.State(), info)
    ensures r.Ok? <==> MinMeasure <= WeightKg(sized, v.State()) <= MaxWeightOf(info)
    ensures r.Ok? ==> Find(r.value, "Weight") == Some(Float(WeightKg(sized, v.State())))
    ensures r.Ok? ==> forall k :: k != "Weight" ==> Find(r.value, k) == Find(sized, k)
    ensures r.Err? ==> r.failure == Failure(WeightOutOfRange, "weight", Plain)
  {
    var result := sized;
    var weight := FloatOf(Find(result, "Weight"));
    var maxWeight := MaxWeightOf(info);
    if v.weightUnit == "lb" {
      weight := Round2(weight * LbToKg);
    }
    result := Put(result, "Weight", Float(weight));
    if weight > maxWeight || weight < MinMeasure {
      return Err(Failure(WeightOutOfRange, "weight", Plain));
    }
    return Ok(result);
  }

  /** shipment(): validates the table, which may write the unit fields, then
      converts and checks the dimensions and the weight. */
  method Shipment(v: Validator, shipment: RawRecord, info: ServiceInfo) returns (r: Result<Record>)
    modifies v
    ensures Pass(r, v.State()) == ShipmentSpec(shipment, info, old(v.State()))
  {
    var validated := ValidateShipmentFields(v, ShipmentFields(), shipment, info);
    if validated.Err? {
      return validated;
    }
    var sized := DimensionSteps(v, validated.value);
    if sized.Err? {
      return sized;
    }
    r := WeightSteps(v, sized.value, info);
  }

  // ---------------------------------------------------------------------------
  // What shipment() promises

  /** Writing the dimensions back in cm sets the three dimension keys and
      leaves every other key as it is. */
  lemma WithDimensionsCmKeeps(r: Record, u: Units)
    ensures Find(WithDimensionsCm(r, u), "Length") == Some(Float(DimensionCm(r, "Length", u)))
    ensures Find(WithDimensionsCm(r, u), "Width") == Some(Float(DimensionCm(r, "Width", u)))
    ensures Find(WithDimensionsCm(r, u), "Height") == Some(Float(DimensionCm(r, "Height", u)))
    ensures forall k :: k != "Length" && k != "Width" && k != "Height" ==> Find(WithDimensionsCm(r, u), k) == Find(r, k)
  {
    assert "Length"[0] != "Width"[0] && "Length"[0] != "Height"[0] && |"Width"| != |"Height"|;
  }

  /** The dimension checks pass exactly when the dimensions fit. */
  lemma DimensionCheckFits(l: real, w: real, h: real)
    ensures DimensionCheck(l, w, h).None? <==> DimensionsFit(l, w, h)
    ensures DimensionCheck(l, w, h).Some? ==>
      DimensionCheck(l, w, h).value.kind == DimensionOutOfRange || DimensionCheck(l, w, h).value.kind == DimensionSumExceeded
  {
  }

  /** The dimension step passes exactly when there are none or all three
      dimensions and they fit once in cm; it leaves the weight alone. */
  lemma DimensionStepOutcome(r: Record, u: Units)
    ensures var n := DimCount(r);
      DimensionStep(r, u).Ok? <==>
        n != 1 && n != 2 &&
        (n == 3 ==> DimensionsFit(DimensionCm(r, "Length", u), DimensionCm(r, "Width", u), DimensionCm(r, "Height", u)))
    ensures DimensionStep(r, u).Ok? ==> Find(DimensionStep(r, u).value, "Weight") == Find(r, "Weight")
    ensures DimensionStep(r, u).Err? ==>
      var f := DimensionStep(r, u).failure;
      f.prefix == Plain && (f.kind == IncompleteDimensions || f.kind == DimensionOutOfRange || f.kind == DimensionSumExceeded)
  {
    var n := DimCount(r);
    if n == 3 {
      var l, w, h := DimensionCm(r, "Length", u), DimensionCm(r, "Width", u), DimensionCm(r, "Height", u);
      DimensionCheckFits(l, w, h);
      assert DimensionStep(r, u) == if DimensionCheck(l, w, h).Some? then Err(DimensionCheck(l, w, h).value)
        else Ok(WithDimensionsCm(r, u));
      WithDimensionsCmKeeps(r, u);
      assert "Weight"[0] != "Length"[0] && "Weight"[0] != "Height"[0] && |"Weight"| != |"Width"|;
    } else if n == 0 {
      assert DimensionStep(r, u) == Ok(r);
    } else {
      assert DimensionStep(r, u) == Err(Failure(IncompleteDimensions, "", Plain));
    }
  }

  /** The steps after the table pass exactly when the dimension step passes and
      the weight in kg lies between the row's minimum and the service's
      maximum. A failure is one of the four kinds these steps raise. */
  lemma FinishShipmentOutcome(r: Record, u: Units, info: ServiceInfo)
    ensures var n := DimCount(r);
      FinishShipment(r, u, info).Ok? <==>
        n != 1 && n != 2 &&
        (n == 3 ==> DimensionsFit(DimensionCm(r, "Length", u), DimensionCm(r, "Width", u), DimensionCm(r, "Height", u))) &&
        MinMeasure <= WeightKg(r, u) <= MaxWeightOf(info)
    ensures FinishShipment(r, u, info).Err? ==>
      var f := FinishShipment(r, u, info).failure;
      f.prefix == Plain &&
      (f.kind == IncompleteDimensions || f.kind == DimensionOutOfRange ||
       f.kind == DimensionSumExceeded || f.kind == WeightOutOfRange)
  {
    DimensionStepOutcome(r, u);
    var d := DimensionStep(r, u);
    if d.Ok? {
      assert WeightKg(d.value, u) == WeightKg(r, u);
      assert FinishShipment(r, u, info) == WeightStep(d.value, u, info);
    }
  }

  /** What the steps after the table store: the weight in kg, the dimensions in
      cm when all three are given and none when none are, and every other
      entry as the table stored it. */
  lemma FinishShipmentStores(r: Record, u: Units, info: ServiceInfo)
    requires FinishShipment(r, u, info).Ok?
    ensures Find(FinishShipment(r, u, info).value, "Weight") == Some(Float(WeightKg(r, u)))
    ensures DimCount(r) == 3 ==>
      Find(FinishShipment(r, u, info).value, "Length") == Some(Float(DimensionCm(r, "Length", u))) &&
      Find(FinishShipment(r, u, info).value, "Width") == Some(Float(DimensionCm(r, "Width", u))) &&
      Find(FinishShipment(r, u, info).value, "Height") == Some(Float(DimensionCm(r, "Height", u)))
    ensures DimCount(r) == 0 ==> DimCount(FinishShipment(r, u, info).value) == 0
    ensures forall k :: k != "Weight" && k != "Length" && k != "Width" && k != "Height" ==>
      Find(FinishShipment(r, u, info).value, k) == Find(r, k)
  {
    DimensionStepOutcome(r, u);
    var d := DimensionStep(r, u).value;
    assert FinishShipment(r, u, info) == WeightStep(d, u, info);
    if DimCount(r) == 3 {
      assert d == WithDimensionsCm(r, u);
      WithDimensionsCmKeeps(r, u);
    } else {
      assert d == r;
    }
    assert "Weight"[0] != "Length"[0] && "Weight"[0] != "Height"[0] && |"Weight"| != |"Width"|;
    assert WeightKg(d, u) == WeightKg(r, u);
  }

  /** Rows 11 and 12 of the table are the value and the shipment value. */
  lemma ValueRows()
    ensures ShipmentFields()[11].key == "Value" && ShipmentFields()[11].name == "value"
    ensures ShipmentFields()[12].key == "ShipmentValue" && ShipmentFields()[12].name == "shipment_value"
  {
  }

  /** Over any table with distinct keys, the value check after the loop passes
      exactly when the value row or the shipment-value row has text. */
  lemma ValueCheckOfProjection(fields: seq<FieldRule>, raw: RawRecord, vi: nat, si: nat)
    requires DistinctKeys(fields) && vi < |fields| && si < |fields|
    requires fields[vi].key == "Value" && fields[si].key == "ShipmentValue"
    ensures ValueCheck(ShipmentProjection(fields, 0, raw)).Ok? <==>
      RawText(raw, fields[vi].name) != "" || RawText(raw, fields[si].name) != ""
  {
    FindInShipmentProjection(fields, 0, raw, vi);
    FindInShipmentProjection(fields, 0, raw, si);
  }

  /** Over any table with distinct keys and a value and a shipment-value row, a
      run succeeds exactly when every row passes, one of the two value rows has
      text, and the dimension and weight steps pass on the projection under
      the unit fields the rows left; it then returns what those steps return. */
  lemma ShipmentRunOutcome(fields: seq<FieldRule>, raw: RawRecord, info: ServiceInfo, u: Units, vi: nat, si: nat)
    requires DistinctKeys(fields) && vi < |fields| && si < |fields|
    requires fields[vi].key == "Value" && fields[si].key == "ShipmentValue"
    ensures ShipmentRun(fields, raw, info, u).units == UnitsFrom(fields, 0, raw, info, u)
    ensures ShipmentRun(fields, raw, info, u).result.Ok? <==>
      RowsAccepted(fields, 0, raw, info) &&
      (RawText(raw, fields[vi].name) != "" || RawText(raw, fields[si].name) != "") &&
      FinishShipment(ShipmentProjection(fields, 0, raw), UnitsFrom(fields, 0, raw, info, u), info).Ok?
    ensures ShipmentRun(fields, raw, info, u).result.Ok? ==>
      ShipmentRun(fields, raw, info, u).result ==
        FinishShipment(ShipmentProjection(fields, 0, raw), UnitsFrom(fields, 0, raw, info, u), info)
  {
    ShipmentFromUnits(fields, 0, raw, info, u, []);
    ShipmentFieldsOutcome(fields, raw, info, u);
    ValueCheckOfProjection(fields, raw, vi, si);
  }

  /** shipment() leaves the unit fields as the rows wrote them, up to the first
      failing row; it succeeds exactly when every row passes, a value or a
      shipment value is given, and the dimension and weight steps pass on what
      the rows stored, under those unit fields; it then returns what those
      steps return. */
  lemma ShipmentOutcome(raw: RawRecord, info: ServiceInfo, u: Units)
    ensures ShipmentSpec(raw, info, u).units == UnitsFrom(ShipmentFields(), 0, raw, info, u)
    ensures ShipmentSpec(raw, info, u).result.Ok? <==>
      RowsAccepted(ShipmentFields(), 0, raw, info) &&
      (RawText(raw, "value") != "" || RawText(raw, "shipment_value") != "") &&
      FinishShipment(ShipmentProjection(ShipmentFields(), 0, raw), UnitsFrom(ShipmentFields(), 0, raw, info, u), info).Ok?
    ensures ShipmentSpec(raw, info, u).result.Ok? ==>
      ShipmentSpec(raw, info, u).result ==
        FinishShipment(ShipmentProjection(ShipmentFields(), 0, raw), UnitsFrom(ShipmentFields(), 0, raw, info, u), info)
  {
    ShipmentKeysDistinct();
    ValueRows();
    ShipmentRunOutcome(ShipmentFields(), raw, info, u, 11, 12);
  }

  // ---------------------------------------------------------------------------
  // The unit fields across the table

  /** The rows before row n all pass (with or without text). */
  predicate PassesBefore(fields: seq<FieldRule>, n: nat, raw: RawRecord, info: ServiceInfo) {
    forall i :: 0 <= i < n && i < |fields| ==> CheckShipmentField(fields[i], raw, info).Ok?
  }

  /** In a table with distinct keys, row j is the only row with its key. */
  lemma OnlyRowWithKey(fields: seq<FieldRule>, j: nat)
    requires DistinctKeys(fields) && j < |fields|
    ensures forall i :: 0 <= i < |fields| && fields[i].key == fields[j].key ==> i == j
  {
    forall i | 0 <= i < |fields| && i != j
      ensures fields[i].key != fields[j].key
    {
      if i < j {
        assert fields[i].key != fields[j].key;
      } else {
        assert fields[j].key != fields[i].key;
      }
    }
  }

  /** Over a table with distinct keys whose unit rows are string rows: a run
      only leaves allowed units; a unit whose row has no text is left as it
      was; and once the rows up to a unit row pass, that unit is the row's
      lower-cased text, whatever the later rows do. */
  lemma RunUnits(fields: seq<FieldRule>, raw: RawRecord, info: ServiceInfo, u: Units, wi: nat, di: nat)
    requires DistinctKeys(fields) && wi < |fields| && di < |fields|
    requires fields[wi].key == "WeightUnit" && fields[wi].kind.StringKind?
    requires fields[di].key == "DimUnit" && fields[di].kind.StringKind?
    ensures UnitsValid(u) ==> UnitsValid(UnitsFrom(fields, 0, raw, info, u))
    ensures RawText(raw, fields[wi].name) == "" ==> UnitsFrom(fields, 0, raw, info, u).weight == u.weight
    ensures RawText(raw, fields[di].name) == "" ==> UnitsFrom(fields, 0, raw, info, u).dim == u.dim
    ensures RawText(raw, fields[wi].name) != "" && PassesBefore(fields, wi + 1, raw, info) ==>
      UnitsFrom(fields, 0, raw, info, u).weight == Lower(RawText(raw, fields[wi].name))
    ensures RawText(raw, fields[di].name) != "" && PassesBefore(fields, di + 1, raw, info) ==>
      UnitsFrom(fields, 0, raw, info, u).dim == Lower(RawText(raw, fields[di].name))
  {
    if UnitsValid(u) {
      UnitsFromValid(fields, 0, raw, info, u);
    }
    OnlyRowWithKey(fields, wi);
    OnlyRowWithKey(fields, di);
    if RawText(raw, fields[wi].name) == "" {
      WeightUnitUntouched(fields, 0, raw, info, u);
    }
    if RawText(raw, fields[di].name) == "" {
      DimUnitUntouched(fields, 0, raw, info, u);
    }
    if RawText(raw, fields[wi].name) != "" && PassesBefore(fields, wi + 1, raw, info) {
      UnitWritePersists(fields, 0, wi, raw, info, u);
    }
    if RawText(raw, fields[di].name) != "" && PassesBefore(fields, di + 1, raw, info) {
      UnitWritePersists(fields, 0, di, raw, info, u);
    }
  }

  /** Rows 6 and 10 of the table are the unit rows. */
  lemma UnitRows()
    ensures ShipmentFields()[6] == FieldRule("WeightUnit", "weight_unit", false, StringKind(2))
    ensures ShipmentFields()[10] == FieldRule("DimUnit", "dim_unit", false, StringKind(2))
  {
  }

  /** shipment() only ever leaves allowed units in the validator; a unit it is
      given no text for stays as it was; and once the rows up to a unit's row
      pass, the validator holds that unit's lower-cased text, even when a later
      row or the dimension or weight step fails. */
  lemma ShipmentUnitsOutcome(raw: RawRecord, info: ServiceInfo, u: Units)
    ensures UnitsValid(u) ==> UnitsValid(ShipmentSpec(raw, info, u).units)
    ensures RawText(raw, "weight_unit") == "" ==> ShipmentSpec(raw, info, u).units.weight == u.weight
    ensures RawText(raw, "dim_unit") == "" ==> ShipmentSpec(raw, info, u).units.dim == u.dim
    ensures RawText(raw, "weight_unit") != "" && PassesBefore(ShipmentFields(), 7, raw, info) ==>
      ShipmentSpec(raw, info, u).units.weight == Lower(RawText(raw, "weight_unit"))
    ensures RawText(raw, "dim_unit") != "" && PassesBefore(ShipmentFields(), 11, raw, info) ==>
      ShipmentSpec(raw, info, u).units.dim == Lower(RawText(raw, "dim_unit"))
  {
    ShipmentKeysDistinct();
    UnitRows();
    ShipmentFromUnits(ShipmentFields(), 0, raw, info, u, []);
    RunUnits(ShipmentFields(), raw, info, u, 6, 10);
  }

  // ---------------------------------------------------------------------------
  // What a successful shipment() stores

  /** Over a table with distinct keys, a successful run stores a string row's
      text in its normalised form, which passes the row's key-specific step
      again and is within the row's length limit; a row without text stores
      nothing. The row's key must not be one the dimension and weight steps
      rewrite. */
  lemma RunStoresText(fields: seq<FieldRule>, raw: RawRecord, info: ServiceInfo, u: Units, j: nat)
    requires DistinctKeys(fields) && j < |fields| && fields[j].kind.StringKind?
    requires fields[j].key != "Weight" && fields[j].key != "Length" && fields[j].key != "Width" && fields[j].key != "Height"
    requires ShipmentRun(fields, raw, info, u).result.Ok?
    ensures var text := RawText(raw, fields[j].name);
      var found := Find(ShipmentRun(fields, raw, info, u).result.value, fields[j].key);
      (text == "" ==> found == None) &&
      (text != "" ==>
        found == Some(Str(Normalised(fields[j].key, text))) &&
        SpecialAccepted(fields[j].key, Normalised(fields[j].key, text), info) &&
        !ExceedsLength(|text|, EffectiveMaxLength(info, fields[j].key, fields[j].kind.defaultLength)))
  {
    var text := RawText(raw, fields[j].name);
    var proj := ShipmentProjection(fields, 0, raw);
    var un := UnitsFrom(fields, 0, raw, info, u);
    ShipmentFieldsOutcome(fields, raw, info, u);
    ShipmentFromUnits(fields, 0, raw, info, u, []);
    assert ShipmentRun(fields, raw, info, u).result == FinishShipment(proj, un, info);
    FinishShipmentStores(proj, un, info);
    FindInShipmentProjection(fields, 0, raw, j);
    assert ShipmentFieldAccepted(fields[j], text, info);
    if text != "" {
      NormalisedIsStable(fields[j].key, text, info);
    }
  }

  /** When every row passes, a number row with text holds a numeric text, and
      the projection stores its value under the row's key; without text it
      stores nothing there. */
  lemma ProjectionNumber(fields: seq<FieldRule>, raw: RawRecord, info: ServiceInfo, j: nat)
    requires DistinctKeys(fields) && j < |fields| && fields[j].kind.NumberKind?
    requires RowsAccepted(fields, 0, raw, info)
    ensures RawText(raw, fields[j].name) != "" ==>
      IsNumeric(RawText(raw, fields[j].name)) &&
      Find(ShipmentProjection(fields, 0, raw), fields[j].key) == Some(Float(NumericValue(RawText(raw, fields[j].name))))
    ensures RawText(raw, fields[j].name) == "" ==> !Has(ShipmentProjection(fields, 0, raw), fields[j].key)
    ensures fields[j].required ==> RawText(raw, fields[j].name) != ""
  {
    FindInShipmentProjection(fields, 0, raw, j);
    assert ShipmentFieldAccepted(fields[j], RawText(raw, fields[j].name), info);
  }

  /** Over a table with distinct keys and a required number row for the
      weight: a successful run stores the weight in kg, between the row's
      minimum and the service's maximum. */
  lemma RunWeight(fields: seq<FieldRule>, raw: RawRecord, info: ServiceInfo, u: Units, wi: nat)
    requires DistinctKeys(fields) && wi < |fields|
    requires fields[wi].key == "Weight" && fields[wi].required && fields[wi].kind.NumberKind?
    requires ShipmentRun(fields, raw, info, u).result.Ok?
    ensures IsNumeric(RawText(raw, fields[wi].name))
    ensures var w := KgWeight(NumericValue(RawText(raw, fields[wi].name)), UnitsFrom(fields, 0, raw, info, u).weight);
      Find(ShipmentRun(fields, raw, info, u).result.value, "Weight") == Some(Float(w)) &&
      MinMeasure <= w <= MaxWeightOf(info)
  {
    var proj := ShipmentProjection(fields, 0, raw);
    var un := UnitsFrom(fields, 0, raw, info, u);
    ShipmentFieldsOutcome(fields, raw, info, u);
    ShipmentFromUnits(fields, 0, raw, info, u, []);
    assert ShipmentRun(fields, raw, info, u).result == FinishShipment(proj, un, info);
    ProjectionNumber(fields, raw, info, wi);
    FinishShipmentOutcome(proj, un, info);
    FinishShipmentStores(proj, un, info);
    assert FloatOf(Find(proj, "Weight")) == NumericValue(RawText(raw, fields[wi].name));
  }

  /** When every row passes, a number row with text converts, through the
      projection, to its number in cm. */
  lemma ProjectionCm(fields: seq<FieldRule>, raw: RawRecord, info: ServiceInfo, un: Units, j: nat)
    requires DistinctKeys(fields) && j < |fields| && fields[j].kind.NumberKind?
    requires RowsAccepted(fields, 0, raw, info) && RawText(raw, fields[j].name) != ""
    ensures IsNumeric(RawText(raw, fields[j].name))
    ensures DimensionCm(ShipmentProjection(fields, 0, raw), fields[j].key, un) ==
      CmLength(NumericValue(RawText(raw, fields[j].name)), un.dim)
  {
    ProjectionNumber(fields, raw, info, j);
    assert FloatOf(Find(ShipmentProjection(fields, 0, raw), fields[j].key)) == NumericValue(RawText(raw, fields[j].name));
  }

  /** When every row passes, the projection holds as many dimensions as the
      three dimension rows have texts, and each converts to the row's number
      in cm. */
  lemma ProjectionDimensions(fields: seq<FieldRule>, raw: RawRecord, info: ServiceInfo, un: Units, li: nat, di: nat, hi: nat)
    requires DistinctKeys(fields) && li < |fields| && di < |fields| && hi < |fields|
    requires fields[li].key == "Length" && fields[li].kind.NumberKind?
    requires fields[di].key == "Width" && fields[di].kind.NumberKind?
    requires fields[hi].key == "Height" && fields[hi].kind.NumberKind?
    requires RowsAccepted(fields, 0, raw, info)
    ensures DimCount(ShipmentProjection(fields, 0, raw)) == 0 <==>
      RawText(raw, fields[li].name) == "" && RawText(raw, fields[di].name) == "" && RawText(raw, fields[hi].name) == ""
    ensures DimCount(ShipmentProjection(fields, 0, raw)) == 3 <==>
      RawText(raw, fields[li].name) != "" && RawText(raw, fields[di].name) != "" && RawText(raw, fields[hi].name) != ""
    ensures DimCount(ShipmentProjection(fields, 0, raw)) == 3 ==>
      IsNumeric(RawText(raw, fields[li].name)) && IsNumeric(RawText(raw, fields[di].name)) && IsNumeric(RawText(raw, fields[hi].name)) &&
      DimensionCm(ShipmentProjection(fields, 0, raw), "Length", un) == CmLength(NumericValue(RawText(raw, fields[li].name)), un.dim) &&
      DimensionCm(ShipmentProjection(fields, 0, raw), "Width", un) == CmLength(NumericValue(RawText(raw, fields[di].name)), un.dim) &&
      DimensionCm(ShipmentProjection(fields, 0, raw), "Height", un) == CmLength(NumericValue(RawText(raw, fields[hi].name)), un.dim)
  {
    var proj := ShipmentProjection(fields, 0, raw);
    ProjectionNumber(fields, raw, info, li);
    ProjectionNumber(fields, raw, info, di);
    ProjectionNumber(fields, raw, info, hi);
    if DimCount(proj) == 3 {
      ProjectionCm(fields, raw, info, un, li);
      ProjectionCm(fields, raw, info, un, di);
      ProjectionCm(fields, raw, info, un, hi);
    }
  }

  /** Over a table with distinct keys and three number rows for the
      dimensions: in a successful run the three have text together or not at
      all; when they have, the run stores them in cm, fitting the parcel
      limits, and otherwise it stores none. */
  lemma RunDimensions(fields: seq<FieldRule>, raw: RawRecord, info: ServiceInfo, u: Units, li: nat, di: nat, hi: nat)
    requires DistinctKeys(fields) && li < |fields| && di < |fields| && hi < |fields|
    requires fields[li].key == "Length" && fields[li].kind.NumberKind?
    requires fields[di].key == "Width" && fields[di].kind.NumberKind?
    requires fields[hi].key == "Height" && fields[hi].kind.NumberKind?
    requires ShipmentRun(fields, raw, info, u).result.Ok?
    ensures (RawText(raw, fields[li].name) == "" && RawText(raw, fields[di].name) == "" && RawText(raw, fields[hi].name) == "") ||
      (RawText(raw, fields[li].name) != "" && RawText(raw, fields[di].name) != "" && RawText(raw, fields[hi].name) != "")
    ensures RawText(raw, fields[li].name) != "" ==>
      IsNumeric(RawText(raw, fields[li].name)) && IsNumeric(RawText(raw, fields[di].name)) && IsNumeric(RawText(raw, fields[hi].name))
    ensures RawText(raw, fields[li].name) == "" ==> DimCount(ShipmentRun(fields, raw, info, u).result.value) == 0
    ensures RawText(raw, fields[li].name) != "" ==>
      var dim := UnitsFrom(fields, 0, raw, info, u).dim;
      var l := CmLength(NumericValue(RawText(raw, fields[li].name)), dim);
      var w := CmLength(NumericValue(RawText(raw, fields[di].name)), dim);
      var h := CmLength(NumericValue(RawText(raw, fields[hi].name)), dim);
      var r := ShipmentRun(fields, raw, info, u).result.value;
      Find(r, "Length") == Some(Float(l)) && Find(r, "Width") == Some(Float(w)) && Find(r, "Height") == Some(Float(h)) &&
      DimensionsFit(l, w, h)
  {
    var proj := ShipmentProjection(fields, 0, raw);
    var un := UnitsFrom(fields, 0, raw, info, u);
    ShipmentFieldsOutcome(fields, raw, info, u);
    ShipmentFromUnits(fields, 0, raw, info, u, []);
    assert ShipmentRun(fields, raw, info, u).result == FinishShipment(proj, un, info);
    ProjectionDimensions(fields, raw, info, un, li, di, hi);
    FinishShipmentOutcome(proj, un, info);
    FinishShipmentStores(proj, un, info);
  }

  /** Rows 5, 7, 8 and 9 of the table are the weight and the three dimensions. */
  lemma MeasureRows()
    ensures ShipmentFields()[5] == FieldRule("Weight", "weight", true, NumberKind(MinMeasure, MaxShipmentWeight))
    ensures ShipmentFields()[7] == FieldRule("Length", "length", false, NumberKind(MinMeasure, MaxShipmentLength))
    ensures ShipmentFields()[8] == FieldRule("Width", "width", false, NumberKind(MinMeasure, MaxShipmentWidth))
    ensures ShipmentFields()[9] == FieldRule("Height", "height", false, NumberKind(MinMeasure, MaxShipmentHeight))
  {
  }

  /** A successful shipment() stores each string row's text in its normalised
      form (the unit rows their internal unit, the coded rows the upper-cased
      code, the tax numbers compacted), which passes the row's key-specific
      step again and is within the row's length limit; a string row without
      text stores nothing. */
  lemma ShipmentStoresText(raw: RawRecord, info: ServiceInfo, u: Units, j: nat)
    requires j < |ShipmentFields()| && ShipmentFields()[j].kind.StringKind?
    requires ShipmentSpec(raw, info, u).result.Ok?
    ensures var rule := ShipmentFields()[j];
      var text := RawText(raw, rule.name);
      var found := Find(ShipmentSpec(raw, info, u).result.value, rule.key);
      (text == "" ==> found == None) &&
      (text != "" ==>
        found == Some(Str(Normalised(rule.key, text))) &&
        SpecialAccepted(rule.key, Normalised(rule.key, text), info) &&
        !ExceedsLength(|text|, EffectiveMaxLength(info, rule.key, rule.kind.defaultLength)))
  {
    var f := ShipmentFields();
    ShipmentKeysDistinct();
    MeasureRows();
    OnlyRowWithKey(f, 5);
    OnlyRowWithKey(f, 7);
    OnlyRowWithKey(f, 8);
    OnlyRowWithKey(f, 9);
    RunStoresText(f, raw, info, u, j);
  }

  /** A successful shipment() stores the weight in kg, between 0.01 and the
      service's maximum; the three dimensions are given together or not at
      all; when given it stores them in cm, each within its range and length
      plus girth at most 300, and otherwise none. The units are those the
      rows left in the validator. */
  lemma ShipmentMeasures(raw: RawRecord, info: ServiceInfo, u: Units)
    requires ShipmentSpec(raw, info, u).result.Ok?
    ensures IsNumeric(RawText(raw, "weight"))
    ensures var w := KgWeight(NumericValue(RawText(raw, "weight")), ShipmentSpec(raw, info, u).units.weight);
      Find(ShipmentSpec(raw, info, u).result.value, "Weight") == Some(Float(w)) &&
      MinMeasure <= w <= MaxWeightOf(info)
    ensures (RawText(raw, "length") == "" && RawText(raw, "width") == "" && RawText(raw, "height") == "") ||
      (RawText(raw, "length") != "" && RawText(raw, "width") != "" && RawText(raw, "height") != "")
    ensures RawText(raw, "length") != "" ==>
      IsNumeric(RawText(raw, "length")) && IsNumeric(RawText(raw, "width")) && IsNumeric(RawText(raw, "height"))
    ensures RawText(raw, "length") == "" ==> DimCount(ShipmentSpec(raw, info, u).result.value) == 0
    ensures RawText(raw, "length") != "" ==>
      var dim := ShipmentSpec(raw, info, u).units.dim;
      var l := CmLength(NumericValue(RawText(raw, "length")), dim);
      var w := CmLength(NumericValue(RawText(raw, "width")), dim);
      var h := CmLength(NumericValue(RawText(raw, "height")), dim);
      var r := ShipmentSpec(raw, info, u).result.value;
      Find(r, "Length") == Some(Float(l)) && Find(r, "Width") == Some(Float(w)) && Find(r, "Height") == Some(Float(h)) &&
      DimensionsFit(l, w, h)
  {
    ShipmentKeysDistinct();
    MeasureRows();
    ShipmentFromUnits(ShipmentFields(), 0, raw, info, u, []);
    RunWeight(ShipmentFields(), raw, info, u, 5);
    RunDimensions(ShipmentFields(), raw, info, u, 7, 8, 9);
  }
}
