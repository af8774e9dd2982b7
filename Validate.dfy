/** The abstract base class every validator extends: the business limits, the
    unit conversion factors, the allow-lists, the shape of the service
    description fetched from the broker, the failures the validators raise, the
    normalised records they build, the country-code check and the two unit
    fields (`weightUnit`, `dimUnit`) that shipment validation writes and product
    validation reads. */
module Validate {
  import opened Php

  // ---------------------------------------------------------------------------
  // Limits and conversion factors

  const MaxProductCount: int := 50
  const MaxShipmentWeight: real := 30.0   // kg
  const MaxValue: real := 5000.0          // EUR
  const MaxShipmentLength: real := 120.0  // cm
  const MaxShipmentWidth: real := 60.0    // cm
  const MaxShipmentHeight: real := 60.0   // cm
  /** Largest length + 2 * (width + height), in cm. */
  const MaxShipmentDimension: real := 300.0
  const LbToKg: real := 0.453592
  const InchToCm: real := 2.54
  const ProductDescMaxLength: nat := 105

  // ---------------------------------------------------------------------------
  // Allow-lists

  const AllowedLabelFormats: seq<string> := ["PDF", "PNG", "ZPL300", "ZPL600", "ZPL200", "ZPL", "EPL"]
  const AllowedWeightUnits: seq<string> := ["kg", "lb"]
  const DefaultWeightUnit: string := "kg"
  const AllowedDimUnits: seq<string> := ["cm", "in"]
  const DefaultDimUnit: string := "cm"
  const CustomDutyTypes: seq<string> := ["DDP", "DDU"]
  const DangerousGoodsTypes: seq<string> := ["Y", "N"]

  /** The ISO 4217 codes the shipment currency may take. */
  const Currencies: seq<string> := [
    "AED", "AFN", "ALL", "AMD", "ANG", "AOA", "ARS", "AUD", "AWG", "AZN", "BAM", "BBD", "BDT", "BGN",
    "BHD", "BIF", "BMD", "BND", "BOB", "BRL", "BSD", "BTN", "BWP", "BYN", "BZD", "CAD", "CDF", "CHF",
    "CLP", "CNY", "COP", "CRC", "CUC", "CUP", "CVE", "CZK", "DJF", "DKK", "DOP", "DZD", "EGP", "ERN",
    "ETB", "EUR", "FJD", "FKP", "GBP", "GEL", "GGP", "GHS", "GIP", "GMD", "GNF", "GTQ", "GYD", "HKD",
    "HNL", "HRK", "HTG", "HUF", "IDR", "ILS", "IMP", "INR", "IQD", "IRR", "ISK", "JEP", "JMD", "JOD",
    "JPY", "KES", "KGS", "KHR", "KMF", "KPW", "KRW", "KWD", "KYD", "KZT", "LAK", "LBP", "LKR", "LRD",
    "LSL", "LYD", "MAD", "MDL", "MGA", "MKD", "MMK", "MNT", "MOP", "MRU", "MUR", "MVR", "MWK", "MXN",
    "MYR", "MZN", "NAD", "NGN", "NIO", "NOK", "NPR", "NZD", "OMR", "PAB", "PEN", "PGK", "PHP", "PKR",
    "PLN", "PYG", "QAR", "RON", "RSD", "RUB", "RWF", "SAR", "SBD", "SCR", "SDG", "SEK", "SGD", "SHP",
    "SLL", "SOS", "SPL", "SRD", "STN", "SVC", "SYP", "SZL", "THB", "TJS", "TMT", "TND", "TOP", "TRY",
    "TTD", "TVD", "TWD", "TZS", "UAH", "UGX", "USD", "UYU", "UZS", "VES", "VND", "VUV", "WST", "XAF",
    "XCD", "XDR", "XOF", "XPF", "YER", "ZAR", "ZMW", "ZWL"
  ]

  // ---------------------------------------------------------------------------
  // Failures: every business-rule violation is an InvalidArgumentException with
  // code 400; an unknown field type is a RuntimeException with code 500.

  datatype ErrorKind =
    | MissingRequired
    | TooLong(splitHint: bool)   // splitHint: the "consider splitting the address" sentence
    | NotInteger
    | BelowMinimum
    | AboveMaximum
    | NotNumber
    | InvalidEmail
    | InvalidPhone
    | InvalidCountryFormat
    | UnsupportedCountry(code: string)
    | InvalidDate
    | NotAllowedValue          // a unit, currency, duty, dangerous-goods or label-format value
    | InvalidPattern           // NI VAT, EORI or IOSS number
    | IncompleteDimensions
    | DimensionOutOfRange
    | DimensionSumExceeded
    | WeightOutOfRange
    | MissingValueField
    | EmptyProducts
    | TotalQuantityExceeded
    | TotalValueExceeded
    | TotalWeightExceeded
    | InvalidApiKey
    | InvalidService
    | ApplicationError

  /** How a product failure is introduced: "Product no: i field:" for a missing
      required field, "Product no. i:" for every other per-item check. */
  datatype Prefix = Plain | ProductField(index: nat) | ProductItem(index: nat)

  /** The failure raised, with the source field name it names. */
  datatype Failure = Failure(kind: ErrorKind, field: string, prefix: Prefix)

  /** The exception code. */
  function Code(f: Failure): (c: int)
    ensures c == 400 || c == 500
    ensures c == 500 <==> f.kind == ApplicationError
  {
    if f.kind == ApplicationError then 500 else 400
  }

  datatype Result<T> = Ok(value: T) | Err(failure: Failure)

  // ---------------------------------------------------------------------------
  // Rule tables

  /** The `type` of a rule with the attributes that type carries. */
  datatype Kind =
    | StringKind(defaultLength: nat)
    | IntKind(intMin: int, intMax: int)
    | NumberKind(numMin: real, numMax: real)

  /** One row of a rule table: output key, source key, required flag, type. */
  datatype FieldRule = FieldRule(key: string, name: string, required: bool, kind: Kind)

  /** The input record, each value already cast to string; a missing key reads as "". */
  type RawRecord = map<string, string>

  /** `trim((string) ($raw[$name] ?? null))`. */
  function RawText(raw: RawRecord, name: string): string {
    Trim(if name in raw then raw[name] else "")
  }

  // ---------------------------------------------------------------------------
  // The service description (`ServiceInfo` of the broker's response)

  /** A `fieldLimits` entry: numeric (is_numeric holds) or not. */
  datatype Limit = Num(n: nat) | NonNumeric(text: string)

  /** `fieldLimits['SupportedCountries']`: missing, a list, or something else. */
  datatype Countries = Absent | Listed(codes: seq<string>) | NotAList

  datatype ServiceInfo = ServiceInfo(
    service: string,
    maxWeight: Option<real>,
    fieldLimits: map<string, Limit>,
    countries: Countries)

  /** `maxWeight ?? MAX_SHIPMENT_WEIGHT`, in kg. */
  function MaxWeightOf(info: ServiceInfo): real {
    match info.maxWeight
    case Some(w) => w
    case None => MaxShipmentWeight
  }

  /** `SupportedCountries ?? []`; None when it is not an array, in which case the
      validators skip the membership check. */
  function AvailableCountries(info: ServiceInfo): (r: Option<seq<string>>)
    ensures info.countries == Absent ==> r == Some([])
  {
    match info.countries
    case Absent => Some([])
    case Listed(codes) => Some(codes)
    case NotAList => None
  }

  /** `$serviceLimits[$key] ?? $default`, falling back to the default when the
      entry is not numeric (address and shipment string fields). */
  function EffectiveMaxLength(info: ServiceInfo, key: string, default: nat): (m: nat)
    ensures key in info.fieldLimits && info.fieldLimits[key].Num? ==> m == info.fieldLimits[key].n
    ensures key !in info.fieldLimits || info.fieldLimits[key].NonNumeric? ==> m == default
  {
    if key in info.fieldLimits && info.fieldLimits[key].Num? then info.fieldLimits[key].n else default
  }

  /** `$len > $max && $max > 0` with a numeric maximum. */
  predicate ExceedsLength(len: nat, max: nat) {
    len > max && max > 0
  }

  // ---------------------------------------------------------------------------
  // Normalised records: PHP arrays with keys in insertion order

  datatype Value = Str(s: string) | Int(n: int) | Float(x: real)
  datatype Entry = Entry(key: string, value: Value)
  type Record = seq<Entry>

  function Keys(r: Record): (ks: seq<string>)
    ensures |ks| == |r|
  {
    if r == [] then [] else [r[0].key] + Keys(r[1..])
  }

  /** `$r[$k] ?? null`. */
  function Find(r: Record, k: string): (v: Option<Value>)
    ensures v.Some? <==> Has(r, k)
  {
    if r == [] then None
    else if r[0].key == k then Some(r[0].value)
    else Find(r[1..], k)
  }

  /** `isset($r[$k])` (values are never null). */
  predicate Has(r: Record, k: string) {
    k in Keys(r)
  }

  /** `$r[$k] = $v`: overwrites in place when the key exists, appends otherwise. */
  function Put(r: Record, k: string, v: Value): (r': Record)
    ensures Find(r', k) == Some(v)
    ensures forall k' :: k' != k ==> Find(r', k') == Find(r, k')
    ensures Has(r, k) ==> Keys(r') == Keys(r)
    ensures !Has(r, k) ==> r' == r + [Entry(k, v)]
  {
    if r == [] then [Entry(k, v)]
    else if r[0].key == k then [Entry(k, v)] + r[1..]
    else
      var rest := Put(r[1..], k, v);
      var r' := [r[0]] + rest;
      assert r'[0] == r[0] && r'[1..] == rest;
      assert Keys(r) == [r[0].key] + Keys(r[1..]);
      assert Keys(r') == [r[0].key] + Keys(rest);
      r'
  }

  /** Keys lists each entry's key at that entry's position. */
  lemma {:induction false} KeysAt(r: Record)
    ensures forall i :: 0 <= i < |r| ==> Keys(r)[i] == r[i].key
  {
    if r != [] {
      KeysAt(r[1..]);
      assert Keys(r) == [r[0].key] + Keys(r[1..]);
    }
  }

  /** Find returns the value of the first entry carrying the key. */
  lemma {:induction false} FindFirst(r: Record, k: string, i: nat)
    requires i < |r| && r[i].key == k
    requires forall j :: 0 <= j < i ==> r[j].key != k
    ensures Find(r, k) == Some(r[i].value)
  {
    if i > 0 {
      FindFirst(r[1..], k, i - 1);
    }
  }

  /** The keys of a concatenation are the concatenated keys. */
  lemma {:induction false} KeysConcat(a: Record, b: Record)
    ensures Keys(a + b) == Keys(a) + Keys(b)
  {
    if a == [] {
      assert a + b == b;
    } else {
      assert (a + b)[0] == a[0] && (a + b)[1..] == a[1..] + b;
      KeysConcat(a[1..], b);
      assert Keys(a + b) == [a[0].key] + (Keys(a[1..]) + Keys(b));
    }
  }

  /** `(float)` of a stored value: a float as it is, an integer widened, and
      0.0 for a missing entry. Stored strings never reach a cast here. */
  function FloatOf(v: Option<Value>): real {
    match v
    case Some(Float(x)) => x
    case Some(Int(n)) => n as real
    case _ => 0.0
  }

  /** A weight in kg: `round($w * LB_TO_KG, 2)` when the unit is lb, else as it is. */
  function KgWeight(w: real, unit: string): real {
    if unit == "lb" then Round2(w * LbToKg) else w
  }

  /** A dimension in cm: `round($x * INCH_TO_CM, 2)` when the unit is in, else as it is. */
  function CmLength(x: real, unit: string): real {
    if unit == "in" then Round2(x * InchToCm) else x
  }

  /** No two rows of a rule table carry the same output key. */
  predicate DistinctKeys(fields: seq<FieldRule>) {
    forall i, j :: 0 <= i < j < |fields| ==> fields[i].key != fields[j].key
  }

  /** Appending row k's key to a record that holds none of the keys of rows k
      onwards keeps every later row's key fresh. */
  lemma LaterKeysStayFresh(fields: seq<FieldRule>, k: nat, acc: Record, v: Value)
    requires k < |fields| && DistinctKeys(fields)
    requires forall j :: k <= j < |fields| ==> !Has(acc, fields[j].key)
    ensures forall j :: k + 1 <= j < |fields| ==> !Has(acc + [Entry(fields[k].key, v)], fields[j].key)
  {
    var acc' := acc + [Entry(fields[k].key, v)];
    KeysConcat(acc, [Entry(fields[k].key, v)]);
    forall j | k + 1 <= j < |fields|
      ensures !Has(acc', fields[j].key)
    {
      assert fields[j].key != fields[k].key;
      assert !Has(acc, fields[j].key);
    }
  }

  lemma AppendAssoc(acc: Record, e: Entry, rest: Record)
    ensures (acc + [e]) + rest == acc + ([e] + rest)
  {
  }

  // ---------------------------------------------------------------------------
  // validateCountryCode

  /** Upper-cases the code and accepts it iff it is, as a string, an element of
      the available list; returns the upper-cased code. */
  function ValidateCountryCode(code: string, available: seq<string>, fieldName: string): (r: Result<string>)
    ensures r.Ok? <==> Upper(code) in available
    ensures r.Ok? ==> r.value == Upper(code)
    ensures r.Err? ==> r.failure == Failure(UnsupportedCountry(Upper(code)), fieldName, Plain) && Code(r.failure) == 400
  {
    var upper := Upper(code);
    if upper in available then Ok(upper)
    else Err(Failure(UnsupportedCountry(upper), fieldName, Plain))
  }

  /** An empty list rejects every code, well-formed ones included. */
  lemma EmptyListRejectsEveryCode(code: string, fieldName: string)
    ensures ValidateCountryCode(code, [], fieldName) == Err(Failure(UnsupportedCountry(Upper(code)), fieldName, Plain))
  {
  }

  /** Membership is exact: a list entry holding a lower-case letter never matches,
      whatever the input's case. */
  lemma LowerCaseEntryNeverMatches(code: string, available: seq<string>, fieldName: string)
    requires forall e :: e in available ==> exists i :: 0 <= i < |e| && IsLower(e[i])
    ensures ValidateCountryCode(code, available, fieldName).Err?
  {
    UpperHasNoLower(code);
  }

  /** The input's case does not matter. */
  lemma CountryCodeCaseInsensitive(code: string, available: seq<string>, fieldName: string)
    ensures ValidateCountryCode(Lower(code), available, fieldName) == ValidateCountryCode(code, available, fieldName)
  {
    UpperOfLower(code);
  }

  // ---------------------------------------------------------------------------
  // The unit state

  /** The two unit fields as a value. */
  datatype Units = Units(weight: string, dim: string)

  /** Units the shipment validator can ever store. */
  predicate UnitsValid(u: Units) {
    u.weight in AllowedWeightUnits && u.dim in AllowedDimUnits
  }

  /** The validator object; its two fields are the only state the core keeps. */
  class Validator {
    var weightUnit: string
    var dimUnit: string

    /** Field initialisers: kg and cm. */
    constructor ()
      ensures weightUnit == DefaultWeightUnit && dimUnit == DefaultDimUnit
      ensures UnitsValid(State())
    {
      weightUnit := DefaultWeightUnit;
      dimUnit := DefaultDimUnit;
    }

    function State(): Units
      reads this
    {
      Units(weightUnit, dimUnit)
    }
  }
}
