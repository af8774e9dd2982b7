/** Consignor and consignee address validation: two literal rule tables and one
    loop that interprets a table against a raw address. PHP's
    FILTER_VALIDATE_EMAIL is not restated; it is the parameter `isEmail`. */
module ValidateAddress {
  import opened Php
  import opened Validate

  // ---------------------------------------------------------------------------
  // The two rule tables

  function ConsignorFields(): seq<FieldRule> {
    [
      FieldRule("FullName", "sender_fullname", false, StringKind(50)),
      FieldRule("Company", "sender_company", false, StringKind(60)),
      FieldRule("AddressLine1", "sender_address", true, StringKind(50)),
      FieldRule("AddressLine2", "sender_address2", false, StringKind(50)),
      FieldRule("AddressLine3", "sender_address3", false, StringKind(50)),
      FieldRule("City", "sender_city", true, StringKind(50)),
      FieldRule("State", "sender_state", false, StringKind(50)),
      FieldRule("Zip", "sender_postalcode", true, StringKind(20)),
      FieldRule("Country", "sender_country", true, StringKind(2)),
      FieldRule("Phone", "sender_phone", false, StringKind(15)),
      FieldRule("Email", "sender_email", false, StringKind(255))
    ]
  }

  function ConsigneeFields(): seq<FieldRule> {
    [
      FieldRule("FullName", "delivery_fullname", true, StringKind(50)),
      FieldRule("Company", "delivery_company", false, StringKind(60)),
      FieldRule("AddressLine1", "delivery_address", true, StringKind(50)),
      FieldRule("AddressLine2", "delivery_address2", false, StringKind(50)),
      FieldRule("AddressLine3", "delivery_address3", false, StringKind(50)),
      FieldRule("City", "delivery_city", true, StringKind(50)),
      FieldRule("State", "delivery_state", false, StringKind(50)),
      FieldRule("Zip", "delivery_postalcode", true, StringKind(20)),
      FieldRule("Country", "delivery_country", true, StringKind(2)),
      FieldRule("Phone", "delivery_phone", false, StringKind(15)),
      FieldRule("Email", "delivery_email", false, StringKind(255))
    ]
  }

  /** The input names of the required rows from row k on, in table order. */
  function RequiredNames(fields: seq<FieldRule>, k: nat): (ns: seq<string>)
    requires k <= |fields|
    ensures forall name :: name in ns <==> exists i :: k <= i < |fields| && fields[i].required && fields[i].name == name
    decreases |fields| - k
  {
    if k == |fields| then []
    else (if fields[k].required then [fields[k].name] else []) + RequiredNames(fields, k + 1)
  }

  /** The consignor must give address line 1, city, zip and country. */
  lemma ConsignorRequiredNames()
    ensures RequiredNames(ConsignorFields(), 0) ==
      ["sender_address", "sender_city", "sender_postalcode", "sender_country"]
  {
    var f := ConsignorFields();
    assert RequiredNames(f, 9) == [];
    assert RequiredNames(f, 8) == ["sender_country"];
    assert RequiredNames(f, 5) == ["sender_city", "sender_postalcode", "sender_country"];
  }

  /** The consignee must also give a full name. */
  lemma ConsigneeRequiredNames()
    ensures RequiredNames(ConsigneeFields(), 0) ==
      ["delivery_fullname", "delivery_address", "delivery_city", "delivery_postalcode", "delivery_country"]
  {
    var f := ConsigneeFields();
    assert RequiredNames(f, 9) == [];
    assert RequiredNames(f, 8) == ["delivery_country"];
    assert RequiredNames(f, 5) == ["delivery_city", "delivery_postalcode", "delivery_country"];
  }

  /** The output keys shared by both tables, in table order. */
  function AddressKeys(): seq<string> {
    ["FullName", "Company", "AddressLine1", "AddressLine2", "AddressLine3", "City",
     "State", "Zip", "Country", "Phone", "Email"]
  }

  /** No key occurs twice in `ks` from position k on. */
  predicate UniqueFrom(ks: seq<string>, k: nat)
    requires k <= |ks|
    decreases |ks| - k
  {
    k == |ks| || ((forall j :: k < j < |ks| ==> ks[j] != ks[k]) && UniqueFrom(ks, k + 1))
  }

  lemma {:induction false} UniqueFromPairs(ks: seq<string>, k: nat)
    requires k <= |ks| && UniqueFrom(ks, k)
    ensures forall i, j :: k <= i < j < |ks| ==> ks[i] != ks[j]
    decreases |ks| - k
  {
    if k < |ks| {
      UniqueFromPairs(ks, k + 1);
    }
  }

  /** No two rows of the shared key list carry the same key. */
  lemma AddressKeysUnique()
    ensures forall i, j :: 0 <= i < j < |AddressKeys()| ==> AddressKeys()[i] != AddressKeys()[j]
  {
    var ks := AddressKeys();
    assert UniqueFrom(ks, 10);
    assert UniqueFrom(ks, 9);
    assert UniqueFrom(ks, 8);
    assert UniqueFrom(ks, 7);
    assert UniqueFrom(ks, 6);
    assert UniqueFrom(ks, 5);
    assert UniqueFrom(ks, 4);
    assert UniqueFrom(ks, 3);
    assert UniqueFrom(ks, 2);
    assert UniqueFrom(ks, 1);
    assert UniqueFrom(ks, 0);
    UniqueFromPairs(ks, 0);
  }

  /** The consignor rows use the shared keys, in order. */
  lemma ConsignorKeys()
    ensures |ConsignorFields()| == |AddressKeys()|
    ensures forall i :: 0 <= i < |AddressKeys()| ==> ConsignorFields()[i].key == AddressKeys()[i]
  {
  }

  /** The consignee rows use the shared keys, in order. */
  lemma ConsigneeKeys()
    ensures |ConsigneeFields()| == |AddressKeys()|
    ensures forall i :: 0 <= i < |AddressKeys()| ==> ConsigneeFields()[i].key == AddressKeys()[i]
  {
  }

  /** Neither table stores two fields under one key. */
  lemma AddressKeysDistinct()
    ensures DistinctKeys(ConsignorFields()) && DistinctKeys(ConsigneeFields())
  {
    AddressKeysUnique();
    ConsignorKeys();
    ConsigneeKeys();
  }

  // ---------------------------------------------------------------------------
  // One field

  /** The `default_length` of a row (every address row carries one). */
  function DefaultLength(kind: Kind): nat {
    if kind.StringKind? then kind.defaultLength else 0
  }

  /** The largest repeat bound PCRE compiles in `{0,n}`. */
  const PcreMaxRepeat: nat := 65535

  /** `preg_match('/^\d{0,max}$/', v)` is 1: the pattern compiles (its bound is
      at most PCRE's limit; otherwise preg_match returns false, which the check
      treats as a mismatch) and v is ASCII digits, one byte each, at most max. */
  predicate PhoneMatches(v: string, max: nat) {
    max <= PcreMaxRepeat && AllDigits(v) && |v| <= max
  }

  /** The country step accepts the upper-cased code: two bytes long, and in the
      supported list when that list is an array. */
  predicate CountryAccepted(code: string, info: ServiceInfo) {
    ByteLength(code) == 2 &&
    match AvailableCountries(info)
    case None => true
    case Some(list) => code in list
  }

  /** What a field stores: the trimmed text, upper-cased for a country. */
  function Normalised(rule: FieldRule, text: string): string {
    if !IsEmpty(text) && Contains(rule.key, "Country") then Upper(text) else text
  }

  /** Every check the loop makes on one field, stated as one conjunction. */
  predicate FieldAccepted(rule: FieldRule, text: string, info: ServiceInfo, isEmail: string -> bool) {
    var max := EffectiveMaxLength(info, rule.key, DefaultLength(rule.kind));
    (rule.required ==> !IsEmpty(text)) &&
    (!IsEmpty(text) ==>
      !ExceedsLength(|text|, max) &&
      (Contains(rule.key, "Email") ==> isEmail(text)) &&
      (Contains(rule.key, "Phone") ==> PhoneMatches(text, max)) &&
      (Contains(rule.key, "Country") ==> CountryAccepted(Upper(text), info)))
  }

  /** One iteration of the address loop: the failure it raises, or the value it
      stores (None when the trimmed text is empty and nothing is stored). */
  function CheckAddressField(rule: FieldRule, raw: RawRecord, info: ServiceInfo, isEmail: string -> bool)
    : Result<Option<string>>
  {
    var value := RawText(raw, rule.name);
    var max := EffectiveMaxLength(info, rule.key, DefaultLength(rule.kind));
    if rule.required && IsEmpty(value) then Err(Failure(MissingRequired, rule.name, Plain))
    else if IsEmpty(value) then (if value == "" then Ok(None) else Ok(Some(value)))
    else if ExceedsLength(|value|, max) then Err(Failure(TooLong(Contains(rule.name, "_address")), rule.name, Plain))
    else if Contains(rule.key, "Email") && !isEmail(value) then Err(Failure(InvalidEmail, rule.name, Plain))
    else if Contains(rule.key, "Phone") && !PhoneMatches(value, max) then Err(Failure(InvalidPhone, rule.name, Plain))
    else if Contains(rule.key, "Country") then
      var upper := Upper(value);
      if ByteLength(upper) != 2 then Err(Failure(InvalidCountryFormat, rule.name, Plain))
      else match AvailableCountries(info)
        case None => Ok(Some(upper))
        case Some(list) =>
          match ValidateCountryCode(upper, list, rule.name)
          case Ok(_) => Ok(Some(upper))
          case Err(f) => Err(f)
    else Ok(Some(value))
  }

  /** One field passes exactly when it meets every check. */
  lemma CheckAddressFieldAccepts(rule: FieldRule, raw: RawRecord, info: ServiceInfo, isEmail: string -> bool)
    ensures CheckAddressField(rule, raw, info, isEmail).Ok? <==> FieldAccepted(rule, RawText(raw, rule.name), info, isEmail)
  {
    UpperHasNoLower(RawText(raw, rule.name));
  }

  /** A passing field stores nothing when its trimmed text is empty, and its
      normalised text otherwise. */
  lemma CheckAddressFieldStores(rule: FieldRule, raw: RawRecord, info: ServiceInfo, isEmail: string -> bool)
    ensures var r := CheckAddressField(rule, raw, info, isEmail);
      var text := RawText(raw, rule.name);
      r.Ok? ==> r.value == if text == "" then None else Some(Normalised(rule, text))
  {
  }

  /** "Missing" is reported exactly for a required field that is empty in PHP's
      sense. */
  lemma CheckAddressFieldMissing(rule: FieldRule, raw: RawRecord, info: ServiceInfo, isEmail: string -> bool)
    ensures CheckAddressField(rule, raw, info, isEmail) == Err(Failure(MissingRequired, rule.name, Plain))
      <==> rule.required && IsEmpty(RawText(raw, rule.name))
  {
  }

  /** Every failure names the field and is a client error; only the address
      lines get the split-the-line hint. */
  lemma CheckAddressFieldFailure(rule: FieldRule, raw: RawRecord, info: ServiceInfo, isEmail: string -> bool)
    requires CheckAddressField(rule, raw, info, isEmail).Err?
    ensures CheckAddressField(rule, raw, info, isEmail).failure.field == rule.name
    ensures Code(CheckAddressField(rule, raw, info, isEmail).failure) == 400
    ensures CheckAddressField(rule, raw, info, isEmail).failure.kind.TooLong? ==>
      CheckAddressField(rule, raw, info, isEmail).failure.kind.splitHint == Contains(rule.name, "_address")
  {
  }

  /** The length check runs before the phone pattern: an over-long phone number
      reports its length even when it holds letters. */
  lemma PhoneLengthReportedFirst(rule: FieldRule, raw: RawRecord, info: ServiceInfo, isEmail: string -> bool)
    requires rule.key == "Phone" && !rule.required
    requires var text := RawText(raw, rule.name);
      !IsEmpty(text) && ExceedsLength(|text|, EffectiveMaxLength(info, rule.key, DefaultLength(rule.kind)))
    ensures CheckAddressField(rule, raw, info, isEmail).Err?
    ensures CheckAddressField(rule, raw, info, isEmail).failure.kind.TooLong?
  {
  }

  /** A phone limit above PCRE's repeat bound makes the pattern fail to
      compile, so every non-empty phone number within the length limit,
      digits included, is reported as an invalid phone number. */
  lemma PhoneOverPcreLimitRejected(rule: FieldRule, raw: RawRecord, info: ServiceInfo, isEmail: string -> bool)
    requires rule.key == "Phone"
    requires var text := RawText(raw, rule.name);
      var max := EffectiveMaxLength(info, rule.key, DefaultLength(rule.kind));
      max > PcreMaxRepeat && !IsEmpty(text) && !ExceedsLength(|text|, max)
    ensures CheckAddressField(rule, raw, info, isEmail) == Err(Failure(InvalidPhone, rule.name, Plain))
  {
    assert rule.key[0] != "Email"[0] && rule.key[1..] == "hone";
    ShorterContainsNothing("hone", "Email");
    assert !Contains(rule.key, "Email");
    assert StartsWith(rule.key, "Phone");
  }

  // ---------------------------------------------------------------------------
  // The loop

  /** The loop from row k on, with the record built so far. */
  function AddressFrom(fields: seq<FieldRule>, k: nat, raw: RawRecord, info: ServiceInfo,
                       isEmail: string -> bool, acc: Record): Result<Record>
    requires k <= |fields|
    decreases |fields| - k
  {
    if k == |fields| then Ok(acc)
    else match CheckAddressField(fields[k], raw, info, isEmail)
      case Err(f) => Err(f)
      case Ok(None) => AddressFrom(fields, k + 1, raw, info, isEmail, acc)
      case Ok(Some(v)) => AddressFrom(fields, k + 1, raw, info, isEmail, Put(acc, fields[k].key, Str(v)))
  }

  /** validateAddress: the whole table from an empty result. */
  function AddressSpec(fields: seq<FieldRule>, raw: RawRecord, info: ServiceInfo, isEmail: string -> bool): Result<Record> {
    AddressFrom(fields, 0, raw, info, isEmail, [])
  }

  /** One pass of the validateAddress loop body: the checks in the order the
      loop makes them, ending in the value to store (if any). */
  method ValidateAddressField(field: FieldRule, address: RawRecord, info: ServiceInfo, isEmail: string -> bool)
    returns (r: Result<Option<string>>)
    ensures r == CheckAddressField(field, address, info, isEmail)
    ensures r.Ok? <==> FieldAccepted(field, RawText(address, field.name), info, isEmail)
    ensures r.Ok? ==> r.value == if RawText(address, field.name) == "" then None
                                 else Some(Normalised(field, RawText(address, field.name)))
    ensures r.Err? ==> r.failure.field == field.name && Code(r.failure) == 400
  {
    CheckAddressFieldAccepts(field, address, info, isEmail);
    CheckAddressFieldStores(field, address, info, isEmail);
    var value := RawText(address, field.name);
    if field.required && IsEmpty(value) {
      return Err(Failure(MissingRequired, field.name, Plain));
    }
    if !IsEmpty(value) {
      var maxLength := EffectiveMaxLength(info, field.key, DefaultLength(field.kind));
      if |value| > maxLength && maxLength > 0 {
        return Err(Failure(TooLong(Contains(field.name, "_address")), field.name, Plain));
      }
      if Contains(field.key, "Email") && !isEmail(value) {
        return Err(Failure(InvalidEmail, field.name, Plain));
      }
      if Contains(field.key, "Phone") && !PhoneMatches(value, maxLength) {
        return Err(Failure(InvalidPhone, field.name, Plain));
      }
      if Contains(field.key, "Country") {
        value := Upper(value);
        if ByteLength(value) == 2 {
          var available := AvailableCountries(info);
          if available.Some? {
            var checked := ValidateCountryCode(value, available.value, field.name);
            if checked.Err? {
              return Err(checked.failure);
            }
          }
        } else {
          return Err(Failure(InvalidCountryFormat, field.name, Plain));
        }
      }
    }
    if value == "" {
      return Ok(None);
    }
    return Ok(Some(value));
  }

  /** validateAddress: checks the fields in table order, stops at the first
      failure, and otherwise returns the stored values. */
  method ValidateAddressFields(fields: seq<FieldRule>, address: RawRecord, info: ServiceInfo, isEmail: string -> bool)
    returns (r: Result<Record>)
    ensures r == AddressSpec(fields, address, info, isEmail)
  {
    var result: Record := [];
    var k := 0;
    while k < |fields|
      invariant k <= |fields|
      invariant AddressSpec(fields, address, info, isEmail) == AddressFrom(fields, k, address, info, isEmail, result)
    {
      var checked := ValidateAddressField(fields[k], address, info, isEmail);
      if checked.Err? {
        return Err(checked.failure);
      }
      if checked.value.Some? {
        AddressFromStore(fields, k, address, info, isEmail, result, checked.value.value);
        result := Put(result, fields[k].key, Str(checked.value.value));
      } else {
        AddressFromSkip(fields, k, address, info, isEmail, result);
      }
      k := k + 1;
    }
    return Ok(result);
  }

  /** consignorAddress. */
  method ConsignorAddress(consignor: RawRecord, info: ServiceInfo, isEmail: string -> bool) returns (r: Result<Record>)
    ensures r == AddressSpec(ConsignorFields(), consignor, info, isEmail)
  {
    r := ValidateAddressFields(ConsignorFields(), consignor, info, isEmail);
  }

  /** consigneeAddress. */
  method ConsigneeAddress(consignee: RawRecord, info: ServiceInfo, isEmail: string -> bool) returns (r: Result<Record>)
    ensures r == AddressSpec(ConsigneeFields(), consignee, info, isEmail)
  {
    r := ValidateAddressFields(ConsigneeFields(), consignee, info, isEmail);
  }

  // ---------------------------------------------------------------------------
  // What the loop computes

  /** The loop succeeds exactly when every row from k on passes its checks; the
      first row that fails decides the failure. */
  lemma {:induction false} AddressFromOkIff(fields: seq<FieldRule>, k: nat, raw: RawRecord, info: ServiceInfo,
                                            isEmail: string -> bool, acc: Record)
    requires k <= |fields|
    ensures AddressFrom(fields, k, raw, info, isEmail, acc).Ok? <==>
      forall j :: k <= j < |fields| ==> FieldAccepted(fields[j], RawText(raw, fields[j].name), info, isEmail)
    decreases |fields| - k
  {
    if k < |fields| {
      var c := CheckAddressField(fields[k], raw, info, isEmail);
      CheckAddressFieldAccepts(fields[k], raw, info, isEmail);
      if c.Ok? {
        var acc' := if c.value.Some? then Put(acc, fields[k].key, Str(c.value.value)) else acc;
        AddressFromOkIff(fields, k + 1, raw, info, isEmail, acc');
      }
    }
  }

  /** The loop reports the failure of the first row that fails: when row j
      fails and rows k to j-1 pass, the run from row k ends with row j's failure. */
  lemma {:induction false} AddressFromFirstFailure(fields: seq<FieldRule>, k: nat, raw: RawRecord, info: ServiceInfo,
                                                   isEmail: string -> bool, acc: Record, j: nat)
    requires k <= j < |fields| && CheckAddressField(fields[j], raw, info, isEmail).Err?
    requires forall i :: k <= i < j ==> CheckAddressField(fields[i], raw, info, isEmail).Ok?
    ensures AddressFrom(fields, k, raw, info, isEmail, acc) == Err(CheckAddressField(fields[j], raw, info, isEmail).failure)
    decreases j - k
  {
    if k < j {
      var c := CheckAddressField(fields[k], raw, info, isEmail);
      var acc' := if c.value.Some? then Put(acc, fields[k].key, Str(c.value.value)) else acc;
      assert AddressFrom(fields, k, raw, info, isEmail, acc) == AddressFrom(fields, k + 1, raw, info, isEmail, acc');
      AddressFromFirstFailure(fields, k + 1, raw, info, isEmail, acc', j);
    }
  }

  /** What a successful run stores, from row k on: one entry per row whose
      trimmed text is not empty, in table order. */
  function Projection(fields: seq<FieldRule>, k: nat, raw: RawRecord): Record
    requires k <= |fields|
    decreases |fields| - k
  {
    if k == |fields| then []
    else
      var text := RawText(raw, fields[k].name);
      (if text == "" then [] else [Entry(fields[k].key, Str(Normalised(fields[k], text)))]) +
      Projection(fields, k + 1, raw)
  }

  lemma {:induction false} ProjectionKeys(fields: seq<FieldRule>, k: nat, raw: RawRecord)
    requires k <= |fields|
    ensures forall key :: key in Keys(Projection(fields, k, raw)) ==>
      exists j :: k <= j < |fields| && fields[j].key == key && RawText(raw, fields[j].name) != ""
    decreases |fields| - k
  {
    if k < |fields| {
      ProjectionKeys(fields, k + 1, raw);
      var text := RawText(raw, fields[k].name);
      var head: Record := if text == "" then [] else [Entry(fields[k].key, Str(Normalised(fields[k], text)))];
      assert Projection(fields, k, raw) == head + Projection(fields, k + 1, raw);
      KeysConcat(head, Projection(fields, k + 1, raw));
    }
  }

  /** A row that passes with nothing to store leaves the record as it was. */
  lemma AddressFromSkip(fields: seq<FieldRule>, k: nat, raw: RawRecord, info: ServiceInfo,
                        isEmail: string -> bool, acc: Record)
    requires k < |fields| && CheckAddressField(fields[k], raw, info, isEmail) == Ok(None)
    ensures AddressFrom(fields, k, raw, info, isEmail, acc) == AddressFrom(fields, k + 1, raw, info, isEmail, acc)
  {
  }

  /** A row that passes with a value stores it under the row's key. */
  lemma AddressFromStore(fields: seq<FieldRule>, k: nat, raw: RawRecord, info: ServiceInfo,
                         isEmail: string -> bool, acc: Record, v: string)
    requires k < |fields| && CheckAddressField(fields[k], raw, info, isEmail) == Ok(Some(v))
    ensures AddressFrom(fields, k, raw, info, isEmail, acc) ==
      AddressFrom(fields, k + 1, raw, info, isEmail, Put(acc, fields[k].key, Str(v)))
  {
  }

  /** A row that stores v under a fresh key: the run continues from the record
      with one more entry, and the projection starts with that entry. */
  lemma StoreStep(fields: seq<FieldRule>, k: nat, raw: RawRecord, info: ServiceInfo,
                  isEmail: string -> bool, acc: Record, v: string)
    requires k < |fields| && DistinctKeys(fields)
    requires forall j :: k <= j < |fields| ==> !Has(acc, fields[j].key)
    requires CheckAddressField(fields[k], raw, info, isEmail) == Ok(Some(v))
    requires v == Normalised(fields[k], RawText(raw, fields[k].name)) && RawText(raw, fields[k].name) != ""
    ensures AddressFrom(fields, k, raw, info, isEmail, acc) ==
      AddressFrom(fields, k + 1, raw, info, isEmail, acc + [Entry(fields[k].key, Str(v))])
    ensures Projection(fields, k, raw) == [Entry(fields[k].key, Str(v))] + Projection(fields, k + 1, raw)
    ensures forall j :: k + 1 <= j < |fields| ==> !Has(acc + [Entry(fields[k].key, Str(v))], fields[j].key)
  {
    AddressFromStore(fields, k, raw, info, isEmail, acc, v);
    LaterKeysStayFresh(fields, k, acc, Str(v));
  }

  /** Over a table with distinct keys, a successful run returns the projection:
      the checks decide only whether the call succeeds, never what it stores. */
  lemma {:induction false} AddressFromResult(fields: seq<FieldRule>, k: nat, raw: RawRecord, info: ServiceInfo,
                                             isEmail: string -> bool, acc: Record)
    requires k <= |fields| && DistinctKeys(fields)
    requires forall j :: k <= j < |fields| ==> !Has(acc, fields[j].key)
    requires AddressFrom(fields, k, raw, info, isEmail, acc).Ok?
    ensures AddressFrom(fields, k, raw, info, isEmail, acc).value == acc + Projection(fields, k, raw)
    decreases |fields| - k
  {
    if k == |fields| {
      assert acc + [] == acc;
    } else {
      var c := CheckAddressField(fields[k], raw, info, isEmail);
      CheckAddressFieldStores(fields[k], raw, info, isEmail);
      if c.value.Some? {
        var e := Entry(fields[k].key, Str(c.value.value));
        StoreStep(fields, k, raw, info, isEmail, acc, c.value.value);
        AddressFromResult(fields, k + 1, raw, info, isEmail, acc + [e]);
        AppendAssoc(acc, e, Projection(fields, k + 1, raw));
      } else {
        AddressFromSkip(fields, k, raw, info, isEmail, acc);
        AddressFromResult(fields, k + 1, raw, info, isEmail, acc);
      }
    }
  }

  /** validateAddress succeeds iff every row passes, and then returns exactly the
      rows with non-empty trimmed text, trimmed, the country upper-cased. */
  lemma AddressOutcome(fields: seq<FieldRule>, raw: RawRecord, info: ServiceInfo, isEmail: string -> bool)
    requires DistinctKeys(fields)
    ensures AddressSpec(fields, raw, info, isEmail).Ok? <==>
      forall j :: 0 <= j < |fields| ==> FieldAccepted(fields[j], RawText(raw, fields[j].name), info, isEmail)
    ensures AddressSpec(fields, raw, info, isEmail).Ok? ==>
      AddressSpec(fields, raw, info, isEmail).value == Projection(fields, 0, raw)
  {
    AddressFromOkIff(fields, 0, raw, info, isEmail, []);
    if AddressSpec(fields, raw, info, isEmail).Ok? {
      AddressFromResult(fields, 0, raw, info, isEmail, []);
    }
  }

  /** Every required input of an accepted address has non-empty text in PHP's
      sense (so "0" counts as missing). */
  lemma AcceptedHasRequired(fields: seq<FieldRule>, raw: RawRecord, info: ServiceInfo, isEmail: string -> bool)
    requires AddressSpec(fields, raw, info, isEmail).Ok?
    ensures forall name :: name in RequiredNames(fields, 0) ==> !IsEmpty(RawText(raw, name))
  {
    AddressFromOkIff(fields, 0, raw, info, isEmail, []);
    forall name | name in RequiredNames(fields, 0)
      ensures !IsEmpty(RawText(raw, name))
    {
      var j :| 0 <= j < |fields| && fields[j].required && fields[j].name == name;
      assert FieldAccepted(fields[j], RawText(raw, fields[j].name), info, isEmail);
    }
  }

  /** A consignor address is accepted only with the four required fields
      non-empty. */
  lemma ConsignorRequiredPresent(raw: RawRecord, info: ServiceInfo, isEmail: string -> bool)
    requires AddressSpec(ConsignorFields(), raw, info, isEmail).Ok?
    ensures forall name :: name in ["sender_address", "sender_city", "sender_postalcode", "sender_country"] ==>
      !IsEmpty(RawText(raw, name))
  {
    AcceptedHasRequired(ConsignorFields(), raw, info, isEmail);
    ConsignorRequiredNames();
  }

  /** A consignee address is accepted only with full name, address line 1, city,
      zip and country non-empty. */
  lemma ConsigneeRequiredPresent(raw: RawRecord, info: ServiceInfo, isEmail: string -> bool)
    requires AddressSpec(ConsigneeFields(), raw, info, isEmail).Ok?
    ensures forall name :: name in ["delivery_fullname", "delivery_address", "delivery_city",
                                    "delivery_postalcode", "delivery_country"]
                       ==> !IsEmpty(RawText(raw, name))
  {
    AcceptedHasRequired(ConsigneeFields(), raw, info, isEmail);
    ConsigneeRequiredNames();
  }

  /** An address whose row j fails is rejected. */
  lemma RowRejectsAddress(fields: seq<FieldRule>, raw: RawRecord, info: ServiceInfo, isEmail: string -> bool, j: nat)
    requires j < |fields| && !FieldAccepted(fields[j], RawText(raw, fields[j].name), info, isEmail)
    ensures AddressSpec(fields, raw, info, isEmail).Err?
  {
    AddressFromOkIff(fields, 0, raw, info, isEmail, []);
  }

  /** A required country row fails whatever its text when no country is
      supported: either the text is empty or its code is not in the empty list. */
  lemma CountryRowRejected(rule: FieldRule, text: string, info: ServiceInfo, isEmail: string -> bool)
    requires rule.required && Contains(rule.key, "Country")
    requires AvailableCountries(info) == Some([])
    ensures !FieldAccepted(rule, text, info, isEmail)
  {
  }

  /** With no supported countries (the key missing or the list empty) no address
      of either side is accepted, since both require a country. */
  lemma EmptyCountryListRejectsAddresses(raw: RawRecord, info: ServiceInfo, isEmail: string -> bool)
    requires AvailableCountries(info) == Some([])
    ensures AddressSpec(ConsignorFields(), raw, info, isEmail).Err?
    ensures AddressSpec(ConsigneeFields(), raw, info, isEmail).Err?
  {
    assert Contains("Country", "Country") by { assert StartsWith("Country", "Country"); }
    var f1, f2 := ConsignorFields(), ConsigneeFields();
    CountryRowRejected(f1[8], RawText(raw, f1[8].name), info, isEmail);
    RowRejectsAddress(f1, raw, info, isEmail, 8);
    CountryRowRejected(f2[8], RawText(raw, f2[8].name), info, isEmail);
    RowRejectsAddress(f2, raw, info, isEmail, 8);
  }
}
