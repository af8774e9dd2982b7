# Sample broker input validation, modelled in Dafny

The sample courier broker checks every request before it calls the courier's
API. Four PHP classes do that checking:

- `Validate` is the abstract base. It holds the limits (50 products, 30 kg,
  5000 EUR, 120 × 60 × 60 cm, girth 300 cm), the allow-lists (label formats,
  units, currencies, customs duty and dangerous-goods codes) and the two unit
  fields `weightUnit` and `dimUnit`. It also has the country-code check.
- `ValidateAddress` checks the consignor and consignee address records
  against two field tables.
- `ValidateProduct` checks each product row. It converts pound weights to
  kilograms and enforces caps on the total quantity, value and weight.
- `ValidateShipment` checks the API key, the service name and the shipment
  record. The shipment check covers the 24-row field table, the key-specific
  checks (date, display id, units, currency, customs, dangerous goods, NI
  VAT, EORI, IOSS, label format) and the rule that at least one value field
  is given. It then does the dimension and weight post-processing: the
  all-or-none rule for dimensions, the inch and pound conversions, the range
  checks and the girth check.

The Dafny modules follow the PHP files one to one:

- `Php` holds the PHP built-ins the validators rely on: `trim`,
  `strtoupper`/`strtolower`, `strlen` against `mb_strlen`,
  `preg_replace('/\s+/')`, `is_numeric`, `FILTER_VALIDATE_INT`,
  `DateTime::createFromFormat('Y-m-d')` and `round(x, 2)`.
- `Validate`, `ValidateAddress`, `ValidateProduct` and `ValidateShipment` each
  model the PHP file of the same name.

A thrown `InvalidArgumentException` or `RuntimeException` becomes an `Err`
holding a `Failure`. A failure records a kind, the field name and a message
prefix, and `Code` maps it to 400 or 500. A validated record is a `Record`,
a sequence of key/value entries in insertion order, like a PHP array.

Every field loop is a `method` with a `while` loop. Each one is proved equal
to a forward-recursive specification function (`AddressFrom`, `ProductFrom`,
`ItemsFrom`, `ShipmentFrom`). The per-row methods (`ValidateAddressField`,
`ValidateProductField`, `SpecialStep`, `DimensionSteps`, `WeightSteps`) are
the executable forms of the `Check…`, `SpecialCheck`, `DimensionStep` and
`WeightStep` functions. Each method's contract ties it to its function and
adds what the result means or, for `SpecialStep`, the new unit state. What the source promises is then proved
about the functions:

- a record is accepted exactly when every row accepts its text;
- the accepted record is the projection of the non-empty texts, normalised;
- the first failing row (or product) decides the error;
- unit writes made before a later failure persist;
- the aggregates stay within the caps.

The unit fields are a `class Validator` whose methods change them in place.
In PHP, each validator object has its own pair of unit fields
(src/Validate.php:73-75). The model passes one `Validator` to the shipment
and product operations, so a unit set by the shipment check is the unit the
product check reads.

## Model

| member | source | states |
|---|---|---|
| Php.TrimLeftDrops | src/ValidateAddress.php:213 | trimming the left removes exactly the leading run of trim characters (space, tab, newline, carriage return, NUL, vertical tab) and keeps the rest as it is |
| Php.TrimRightDrops | src/ValidateAddress.php:213 | trimming the right removes exactly the trailing run of trim characters and keeps the head as it is |
| Php.TrimSlice | src/ValidateAddress.php:213 | trim returns the slice of the input between its leading and trailing runs of trim characters, everything outside the slice being a trim character |
| Php.TrimFixpoint | src/ValidateAddress.php:213 | trim leaves a text unchanged exactly when the text is empty or has no trim character at either end |
| Php.TrimIdempotent | src/ValidateShipment.php:347 | trimming twice equals trimming once |
| Php.Upper | src/Validate.php:83 | strtoupper keeps the length |
| Php.Lower | src/ValidateShipment.php:405 | strtolower keeps the length |
| Php.UpperEachChar | src/Validate.php:83 | strtoupper maps each character on its own (ASCII a-z only) |
| Php.LowerEachChar | src/ValidateShipment.php:405 | strtolower maps each character on its own (ASCII A-Z only) |
| Php.UpperHasNoLower | src/Validate.php:83 | an upper-cased text holds no lower-case letter, and upper-casing is idempotent |
| Php.UpperOfLower | src/ValidateShipment.php:429 | upper-casing a lower-cased text gives the same as upper-casing the original |
| Php.ByteLengthBounds | src/ValidateAddress.php:251 | strlen is at least mb_strlen and equals it exactly for ASCII text |
| Php.TwoBytes | src/ValidateAddress.php:251 | strlen is 2 exactly for two ASCII characters or one two-byte character |
| Php.RemoveSpacesSplits | src/ValidateShipment.php:462 | removing whitespace works character by character: one whitespace character is removed, any other kept, and the removal distributes over concatenation |
| Php.RemoveSpacesOfSpaceFree | src/ValidateShipment.php:472 | removing whitespace from a whitespace-free text changes nothing |
| Php.DigitChar | src/ValidateProduct.php:160 | the digit character of d has value d |
| Php.NatToString | src/ValidateProduct.php:160 | the decimal text of a number is a non-empty string of digits |
| Php.NatToStringRoundTrip | src/ValidateProduct.php:160-166 | reading back the decimal text gives the number; a positive number has no leading zero |
| Php.DigitEnd | src/ValidateProduct.php:181 | the scan stops at the end of a run of digits |
| Php.SpaceEnd | src/ValidateProduct.php:181 | the scan from i stops at the first character that is not whitespace (or the end), and every character it skips is whitespace |
| Php.DigitsAreNumeric | src/ValidateProduct.php:181-187 | a plain digit string is numeric and converts to its decimal value |
| Php.DigitsRunToEnd | src/ValidateProduct.php:181 | in a digit string the digit run reaches the end |
| Php.ParseNumeric | src/ValidateProduct.php:181-187 | is_numeric and the float cast: optional surrounding whitespace, an optional sign, digits with an optional decimal point (at least one digit on one side of it) and an optional exponent; the value is the signed decimal number |
| Php.IsNumeric | src/ValidateProduct.php:181 | a text is numeric exactly when it parses |
| Php.FilterTrimLeftDrops | src/ValidateProduct.php:160 | the filter's left trim removes exactly the leading run of filter whitespace and keeps the rest |
| Php.FilterTrimRightDrops | src/ValidateProduct.php:160 | the filter's right trim removes exactly the trailing run of filter whitespace and keeps the head |
| Php.FilterIntAccepts | src/ValidateProduct.php:160 | every text FILTER_VALIDATE_INT accepts is, after trimming filter whitespace, the canonical decimal form of the result, with an optional "+" or "-" sign (no leading zeros) |
| Php.FilterIntSigns | src/ValidateProduct.php:160-166 | the decimal form of n, bare, with "+" or with "-", is accepted exactly when the signed value lies in the 64-bit range, and then yields that value |
| Php.IsDate | src/ValidateShipment.php:386-387 | a date in strict Y-m-d form: four-digit year, two-digit month 1-12, two-digit day within the month, leap years included |
| Php.FilterIntRoundTrip | src/ValidateProduct.php:160-166 | the decimal text of every integer up to PHP_INT_MAX passes FILTER_VALIDATE_INT and yields that integer |
| Php.RoundHalfUp2 | src/ValidateProduct.php:81 | rounding a non-negative value to 2 decimals moves it by at most half a cent, lands on a cent and stays non-negative |
| Php.Round2 | src/ValidateShipment.php:305 | round(x, 2) is a whole number of cents within half a cent of x, a half-cent tie going away from zero (up for non-negative x, down for negative x), and keeps non-negative values non-negative |
| Php.Round2Unique | src/ValidateShipment.php:305 | round(x, 2) is the only whole number of cents in that half-open window around x |
| Validate.Code | src/ValidateShipment.php:379-384 | every failure has code 400, except the application error, which has 500 |
| Validate.AvailableCountries | src/ValidateAddress.php:207 | a missing SupportedCountries limit means an empty list |
| Validate.EffectiveMaxLength | src/ValidateAddress.php:218-221 | the service's numeric field limit overrides the default length, and a missing or non-numeric one leaves the default |
| Validate.KeysAt | src/ValidateAddress.php:269 | the key list of a record holds each entry's key at that entry's position |
| Validate.FindFirst | src/ValidateShipment.php:217-219 | a lookup returns the value of the first entry carrying the key |
| Validate.Put | src/ValidateShipment.php:521 | writing a key sets it, leaves every other key unchanged, keeps the position of an existing key and appends a new one |
| Validate.KeysConcat | src/ValidateShipment.php:521 | the keys of two joined records are the keys of each in order |
| Validate.LaterKeysStayFresh | src/ValidateAddress.php:268-270 | with distinct table keys, storing one row's key does not set any later row's key |
| Validate.ValidateCountryCode | src/Validate.php:77-92 | a code is accepted exactly when its upper-case form is in the list, and the result is that upper-case form; otherwise an unsupported-country failure with code 400 |
| Validate.EmptyListRejectsEveryCode | src/Validate.php:84 | an empty list rejects every code |
| Validate.LowerCaseEntryNeverMatches | src/Validate.php:83-84 | a list whose entries all hold a lower-case letter rejects every code |
| Validate.CountryCodeCaseInsensitive | src/Validate.php:83 | the country check gives the same answer for a code and its lower-case form |
| Validate.Validator.constructor | src/Validate.php:73-75 | a new validator starts with kg and cm, which are valid units |
| ValidateAddress.RequiredNames | src/ValidateAddress.php:214-216 | the required names are exactly the names of the rows flagged required |
| ValidateAddress.ConsignorRequiredNames | src/ValidateAddress.php:25-97 | the consignor table requires the street, city, postal code and country |
| ValidateAddress.ConsigneeRequiredNames | src/ValidateAddress.php:113-185 | the consignee table requires the full name, street, city, postal code and country |
| ValidateAddress.ConsignorFields | src/ValidateAddress.php:27-94 | the consignor table: each row's key, input name, required flag and default length |
| ValidateAddress.ConsigneeFields | src/ValidateAddress.php:115-182 | the consignee table: the same keys with delivery_ names and the full name required |
| ValidateAddress.PhoneMatches | src/ValidateAddress.php:239-242 | the phone pattern matches ASCII digits up to the limit, and nothing when the limit is above PCRE's 65535 |
| ValidateAddress.CheckAddressField | src/ValidateAddress.php:213-271 | one pass of the loop body: required (PHP empty, so "0" is missing), length, email, phone, then country format and list, in that order; stores the trimmed text, upper-cased for a country, when it is non-empty |
| ValidateAddress.AddressFrom | src/ValidateAddress.php:212-272 | the loop from row k: stops at the first failing row, otherwise stores each row's value under its key |
| ValidateAddress.UniqueFromPairs | src/ValidateAddress.php:27-94 | a key list unique from position k has no two equal keys after k |
| ValidateAddress.AddressKeysUnique | src/ValidateAddress.php:27-94 | the address keys are pairwise different |
| ValidateAddress.ConsignorKeys | src/ValidateAddress.php:27-94 | the consignor table has the address keys, in order |
| ValidateAddress.ConsigneeKeys | src/ValidateAddress.php:115-182 | the consignee table has the same keys, in the same order |
| ValidateAddress.AddressKeysDistinct | src/ValidateAddress.php:27-94 | both address tables have distinct keys |
| ValidateAddress.CheckAddressFieldAccepts | src/ValidateAddress.php:201-274 | one row is accepted exactly when its trimmed text passes every check: required, length (with the split hint), email, phone and country |
| ValidateAddress.CheckAddressFieldStores | src/ValidateAddress.php:268-270 | an accepted row stores its normalised text when the text is non-empty, and stores nothing otherwise |
| ValidateAddress.CheckAddressFieldMissing | src/ValidateAddress.php:214-216 | a required row with empty text fails as missing |
| ValidateAddress.CheckAddressFieldFailure | src/ValidateAddress.php:218-266 | every row failure names the row's field and has code 400; a too-long failure carries the split-the-line hint exactly when the field name contains "_address" |
| ValidateAddress.PhoneLengthReportedFirst | src/ValidateAddress.php:222-248 | a phone text that is too long fails on length before the phone pattern is looked at |
| ValidateAddress.PhoneOverPcreLimitRejected | src/ValidateAddress.php:239-248 | with a phone limit above 65535 the pattern does not compile, so every non-empty phone number within the length limit, digits included, fails as an invalid phone number |
| ValidateAddress.ValidateAddressField | src/ValidateAddress.php:213-271 | one pass of the loop body passes exactly when the trimmed text meets every check; it then stores nothing for empty text and the normalised text otherwise, and a failure names the field with code 400 |
| ValidateAddress.ValidateAddressFields | src/ValidateAddress.php:201-274 | the row loop equals the address specification |
| ValidateAddress.ConsignorAddress | src/ValidateAddress.php:25-97 | the consignor check runs the address loop over the consignor table |
| ValidateAddress.ConsigneeAddress | src/ValidateAddress.php:113-185 | the consignee check runs the address loop over the consignee table |
| ValidateAddress.AddressFromOkIff | src/ValidateAddress.php:211-272 | the loop from row k succeeds exactly when every row from k on is accepted |
| ValidateAddress.AddressFromFirstFailure | src/ValidateAddress.php:212-272 | when row j fails and the rows before it from k pass, the loop from k fails with row j's failure |
| ValidateAddress.ProjectionKeys | src/ValidateAddress.php:268-270 | every key in the projection from row k on is the key of a row at or after k whose trimmed text is non-empty |
| ValidateAddress.AddressFromSkip | src/ValidateAddress.php:268 | a row with empty text adds nothing |
| ValidateAddress.AddressFromStore | src/ValidateAddress.php:269 | a row with text appends its value and the loop continues |
| ValidateAddress.StoreStep | src/ValidateAddress.php:269 | storing one row extends the projection by that row's entry and keeps later keys unset |
| ValidateAddress.AddressFromResult | src/ValidateAddress.php:211-273 | an accepted loop returns the prefix followed by the projection of the remaining rows |
| ValidateAddress.AddressOutcome | src/ValidateAddress.php:201-274 | an address is accepted exactly when every row is accepted, and the result is the normalised non-empty texts in table order |
| ValidateAddress.AcceptedHasRequired | src/ValidateAddress.php:214-216 | an accepted address has non-empty text for every required name |
| ValidateAddress.ConsignorRequiredPresent | src/ValidateAddress.php:25-97 | an accepted consignor has a street, city, postal code and country |
| ValidateAddress.ConsigneeRequiredPresent | src/ValidateAddress.php:113-185 | an accepted consignee has a full name, street, city, postal code and country |
| ValidateAddress.RowRejectsAddress | src/ValidateAddress.php:201-274 | one rejected row rejects the whole address |
| ValidateAddress.CountryRowRejected | src/ValidateAddress.php:249-266 | with an empty country list, a required country row is never accepted |
| ValidateAddress.EmptyCountryListRejectsAddresses | src/ValidateAddress.php:249-266 | with an empty country list, every consignor and consignee address is rejected |
| ValidateProduct.ProductFieldsShape | src/ValidateProduct.php:30-70 | the product table's rows: kinds, limits and the HS code required for cross-border shipments |
| ValidateProduct.ProductKeysDistinct | src/ValidateProduct.php:30-70 | the product table has distinct keys |
| ValidateProduct.ProductFields | src/ValidateProduct.php:30-70 | the product table: each row's key, input name, required flag and kind with its limits |
| ValidateProduct.CheckProductField | src/ValidateProduct.php:139-220 | one pass of the loop body: required (empty string only), then the string length, integer (non-zero, in range) or numeric check, then the origin-country format and list |
| ValidateProduct.ProductFrom | src/ValidateProduct.php:139-221 | the loop from row k: stops at the first failing row, otherwise stores each row's value under its key |
| ValidateProduct.CheckProductFieldAccepts | src/ValidateProduct.php:139-220 | one product row is accepted exactly when its trimmed text passes the required, length, integer range, numeric and origin-country checks |
| ValidateProduct.CheckProductFieldStores | src/ValidateProduct.php:166-219 | an accepted row stores its typed value (text, integer, float, upper-case country) when non-empty |
| ValidateProduct.CheckProductFieldMissing | src/ValidateProduct.php:141-146 | a required row with empty text fails as missing, tagged with the product index |
| ValidateProduct.CheckProductFieldFailure | src/ValidateProduct.php:141-217 | every row failure names the field and has code 400; a missing field, a country-list failure and every other failure each carry their own message prefix, and none is the address split hint |
| ValidateProduct.ZeroQuantityNotInteger | src/ValidateProduct.php:160 | a quantity of 0 is reported as "not an integer", since the filter result 0 is falsy |
| ValidateProduct.NumberRowsUnbounded | src/ValidateProduct.php:180-193 | a numeric text in a number row is always accepted and stored as its float value: the min/max of number rows is never checked |
| ValidateProduct.ValidateProductField | src/ValidateProduct.php:139-220 | one pass of the loop body passes exactly when the trimmed text meets every check; it then stores nothing for empty text and the typed value otherwise, and a failure names the field with code 400 |
| ValidateProduct.ValidateProductFields | src/ValidateProduct.php:125-224 | the row loop equals the product specification |
| ValidateProduct.ProductFromSkip | src/ValidateProduct.php:147 | a row with empty text adds nothing |
| ValidateProduct.ProductFromStore | src/ValidateProduct.php:219 | a row with text appends its value and the loop continues |
| ValidateProduct.ProductFromOkIff | src/ValidateProduct.php:139-221 | the loop from row k succeeds exactly when every row from k on is accepted |
| ValidateProduct.ProductFromFirstFailure | src/ValidateProduct.php:139-221 | when row j fails and the rows before it from k pass, the loop from k fails with row j's failure |
| ValidateProduct.StoreStep | src/ValidateProduct.php:219 | storing one row extends the projection by that row's entry and keeps later keys unset |
| ValidateProduct.ProductFromResult | src/ValidateProduct.php:139-223 | an accepted loop returns the prefix followed by the projection of the remaining rows |
| ValidateProduct.ProductOutcome | src/ValidateProduct.php:125-224 | a product is accepted exactly when every row is, and the result is the typed non-empty values in table order |
| ValidateProduct.ProductProjectionKeys | src/ValidateProduct.php:219 | every key in the projection from row k on is the key of a row at or after k whose trimmed text is non-empty |
| ValidateProduct.FindInProjection | src/ValidateProduct.php:219 | looking up a row's key gives its stored value when its text is non-empty, and nothing otherwise |
| ValidateProduct.ConvertKeepsQuantityAndValue | src/ValidateProduct.php:79-83 | the pound-to-kilogram rewrite changes neither quantity nor value |
| ValidateProduct.TotalsAppend | src/ValidateProduct.php:84-89 | adding one product to the list adds its quantity, weight × quantity and value × quantity to the totals |
| ValidateProduct.ItemsFromStep | src/ValidateProduct.php:76-91 | an accepted product is converted and appended, and the loop continues |
| ValidateProduct.ItemsFromStop | src/ValidateProduct.php:77 | a rejected product stops the loop with its failure |
| ValidateProduct.ItemsFrom | src/ValidateProduct.php:76-91 | the product loop from product k: validates each product with its index, rewrites its weight by the unit and appends it, stopping at the first failure |
| ValidateProduct.ConvertWeight | src/ValidateProduct.php:79-83 | a product's weight rewritten in kilograms when the unit is lb |
| ValidateProduct.TotalsOf | src/ValidateProduct.php:78-89 | the totals: summed quantity, weight × quantity and value × quantity (a missing value counting 0) |
| ValidateProduct.AggregateCheck | src/ValidateProduct.php:93-120 | the three caps in source order: quantity above 50, value above 5000, weight above the service maximum |
| ValidateProduct.ProductsSpec | src/ValidateProduct.php:11-123 | products(): an empty list fails; otherwise the product loop, then the caps |
| ValidateProduct.RewriteWeight | src/ValidateProduct.php:79-83 | the in-place rewrite equals the conversion and keeps quantity and value |
| ValidateProduct.ValidateItems | src/ValidateProduct.php:72-91 | the product loop equals the item specification, and its running totals are the totals of the converted products |
| ValidateProduct.Products | src/ValidateProduct.php:11-123 | products() equals its specification under the validator's current weight unit |
| ValidateProduct.OutputsShape | src/ValidateProduct.php:76-91 | the first n outputs are, index by index, the converted validation of each product |
| ValidateProduct.ItemsFromValid | src/ValidateProduct.php:76-91 | when every product is accepted, the loop returns every converted product in order |
| ValidateProduct.ItemsFromInvalid | src/ValidateProduct.php:76-91 | the loop fails with the failure of the first rejected product |
| ValidateProduct.AggregateCheckOrder | src/ValidateProduct.php:93-120 | the caps pass exactly when quantity ≤ 50, value ≤ 5000 and weight ≤ the service maximum, checked in that order |
| ValidateProduct.ProductsWhenItemsValid | src/ValidateProduct.php:76-122 | with every product accepted, the result is the converted products when the caps hold, and the first failing cap otherwise |
| ValidateProduct.FirstInvalidProduct | src/ValidateProduct.php:76-91 | a non-empty list with a rejected product fails with the failure of the first rejected one |
| ValidateProduct.ProductsOutcome | src/ValidateProduct.php:11-123 | products() succeeds exactly when the list is non-empty, every product is accepted and the caps hold, and then returns the converted products; an empty list fails as empty |
| ValidateProduct.FirstFailing | src/ValidateProduct.php:76-77 | the index of the first rejected product: rejected, with every earlier product accepted |
| ValidateProduct.KeptField | src/ValidateProduct.php:219 | an accepted product keeps each row's stored value under its key |
| ValidateProduct.ConvertFind | src/ValidateProduct.php:79-83 | the conversion leaves every key but the weight unchanged |
| ValidateProduct.ConvertWeightOf | src/ValidateProduct.php:79-83 | the converted weight is the weight in kilograms |
| ValidateProduct.KeptRow | src/ValidateProduct.php:30-70 | each output keeps every row other than the weight as validated |
| ValidateProduct.KeptWeightField | src/ValidateProduct.php:79-83 | the output weight of a required number row is its numeric text converted to kilograms |
| ValidateProduct.KeptWeight | src/ValidateProduct.php:79-83 | each output's weight is the numeric weight text in kilograms |
| ValidateProduct.KeptQuantity | src/ValidateProduct.php:159-179 | each output's quantity is the integer between 1 and 50 read from the text |
| ValidateProduct.KeptValue | src/ValidateProduct.php:180-193 | each output's value is the numeric value text, or absent when the text is empty |
| ValidateProduct.KeptHsCode | src/ValidateProduct.php:25-28 | each output has an HS code when the two countries differ |
| ValidateProduct.ProductsWithinCaps | src/ValidateProduct.php:93-120 | an accepted list has total quantity ≤ 50, total value ≤ 5000 and total weight ≤ the service maximum |
| ValidateProduct.ProductsKeptItems | src/ValidateProduct.php:76-91 | an accepted list returns one output per product, each with quantity between 1 and 50 and weight in kilograms |
| ValidateProduct.AmountAtLeastCount | src/ValidateProduct.php:78 | when every quantity is at least 1, the total quantity is at least the number of products |
| ValidateProduct.AtMostFiftyProducts | src/ValidateProduct.php:93-99 | an accepted list has at most 50 products |
| ValidateShipment.ApiKey | src/ValidateShipment.php:19-26 | a key is accepted exactly when it is neither empty nor "0", and is returned unchanged |
| ValidateShipment.Service | src/ValidateShipment.php:36-46 | a service is accepted exactly when its upper-case form is in the allowed list, is returned unchanged, and a missing list rejects every service |
| ValidateShipment.ServiceCaseInsensitive | src/ValidateShipment.php:39 | a service and its lower-case form get the same answer |
| ValidateShipment.LowerCaseServicesNeverMatch | src/ValidateShipment.php:39 | a list whose entries all hold a lower-case letter rejects every service |
| ValidateShipment.LowRowKeysDiffer | src/ValidateShipment.php:63-214 | the first rows' keys differ from every later key |
| ValidateShipment.MiddleRowKeysDiffer | src/ValidateShipment.php:63-214 | the middle rows' keys differ from every later key |
| ValidateShipment.HighRowKeysDiffer | src/ValidateShipment.php:63-214 | the last rows' keys differ from every later key |
| ValidateShipment.ShipmentKeysDistinct | src/ValidateShipment.php:63-214 | the shipment table has distinct keys |
| ValidateShipment.ShipmentFields | src/ValidateShipment.php:63-214 | the shipment table: 24 rows with key, input name, required flag and kind with its limits |
| ValidateShipment.Compact | src/ValidateShipment.php:462 | a tax number with whitespace removed, upper-cased |
| ValidateShipment.NiVatPattern | src/ValidateShipment.php:463 | XI followed by nine digits |
| ValidateShipment.EoriPattern | src/ValidateShipment.php:473 | two letters A-Z followed by at least one non-whitespace character |
| ValidateShipment.IossPattern | src/ValidateShipment.php:493 | IM, two letters A-Z and twelve digits |
| ValidateShipment.SpecialCheck | src/ValidateShipment.php:385-520 | the key-specific step of one row, its failure naming the row |
| ValidateShipment.CheckShipmentField | src/ValidateShipment.php:347-521 | one pass of the loop body: required (empty string only), then the string length or numeric check, an application error for any other type, then the key-specific step |
| ValidateShipment.ShipmentFrom | src/ValidateShipment.php:346-532 | the loop from row k with the unit fields: stops at the first failing row, otherwise stores each value and lets unit rows write the units, ending with the value check |
| ValidateShipment.ListVerdict | src/ValidateShipment.php:428-460 | an allow-list check accepts exactly the listed codes and returns the code |
| ValidateShipment.SpecialVerdict | src/ValidateShipment.php:385-520 | every key-specific rejection has the kind that key's check raises |
| ValidateShipment.SpecialCheckMeaning | src/ValidateShipment.php:385-520 | the key-specific check passes exactly when the value meets its key's rule, and then yields the value stored for the row: kg or cm for the unit rows, the upper-case code, the compacted upper-case tax number, or the trimmed text |
| ValidateShipment.CompactIdempotent | src/ValidateShipment.php:462 | removing whitespace and upper-casing twice equals doing it once |
| ValidateShipment.NormalisedIsStable | src/ValidateShipment.php:404-520 | a normalised accepted value is accepted again and normalises to itself |
| ValidateShipment.CheckShipmentFieldAccepts | src/ValidateShipment.php:345-522 | one row is accepted exactly when its trimmed text passes the required, length, numeric and key-specific checks |
| ValidateShipment.CheckShipmentFieldStores | src/ValidateShipment.php:521 | an accepted non-empty row stores its normalised text or its float value |
| ValidateShipment.CheckShipmentFieldMissing | src/ValidateShipment.php:348-353 | a required row with empty text fails as missing |
| ValidateShipment.CheckShipmentFieldFailure | src/ValidateShipment.php:348-520 | every row failure uses the plain prefix; it has code 500 exactly for a non-empty row of an unsupported type, and otherwise names the field |
| ValidateShipment.IntRowsAreApplicationErrors | src/ValidateShipment.php:379-384 | a row of a type other than string or number fails with the application error, code 500 |
| ValidateShipment.DisplayIdCappedAt15 | src/ValidateShipment.php:394-403 | without a service limit, a display id longer than 15 characters fails even though its row allows 255 |
| ValidateShipment.EoriPatternAfterCompact | src/ValidateShipment.php:471-490 | the EORI pattern is matched on the compacted, upper-case value, which holds no whitespace |
| ValidateShipment.KeyCheckOfUnits | src/ValidateShipment.php:404-427 | only the WeightUnit and DimUnit keys carry the unit checks |
| ValidateShipment.ValidateShipmentField | src/ValidateShipment.php:345-522 | the per-row step equals the row check and writes a unit only for an accepted unit row |
| ValidateShipment.SpecialStep | src/ValidateShipment.php:385-520 | the key-specific step equals the key check and writes the unit on success |
| ValidateShipment.UnitStep | src/ValidateShipment.php:404-427 | the unit step accepts only kg/lb or cm/in (any case) and writes the lower-case unit |
| ValidateShipment.TaxNumberStep | src/ValidateShipment.php:461-509 | the NI VAT, EORI and IOSS step passes exactly when the compacted upper-case value matches its pattern and, for EORI and IOSS, its embedded country is supported; it returns the compacted value, and a failure is a pattern or unsupported-country failure naming the field |
| ValidateShipment.ValidateShipmentFields | src/ValidateShipment.php:337-533 | the row loop equals the shipment specification, result and unit fields together |
| ValidateShipment.ShipmentFromStop | src/ValidateShipment.php:345-520 | a rejected row stops the loop with its failure and keeps the units written so far |
| ValidateShipment.ShipmentFromSkip | src/ValidateShipment.php:355 | a row with empty text adds nothing |
| ValidateShipment.ShipmentFromStore | src/ValidateShipment.php:521 | a row with text appends its value, updates the units and continues |
| ValidateShipment.ShipmentFromUnits | src/ValidateShipment.php:404-427 | the units after the loop are the units written row by row up to the first failure |
| ValidateShipment.ShipmentFromFirstFailure | src/ValidateShipment.php:346-522 | when row j fails and the rows before it from k pass, the loop from k fails with row j's failure and keeps the units the earlier rows wrote |
| ValidateShipment.UnitsAfterValid | src/ValidateShipment.php:404-427 | an accepted row keeps the units valid |
| ValidateShipment.UnitsFromValid | src/ValidateShipment.php:404-427 | the loop keeps the units valid |
| ValidateShipment.WeightUnitUntouched | src/ValidateShipment.php:404-415 | without weight-unit text the weight unit is unchanged |
| ValidateShipment.DimUnitUntouched | src/ValidateShipment.php:416-427 | without dimension-unit text the dimension unit is unchanged |
| ValidateShipment.UnitWritePersists | src/ValidateShipment.php:404-427 | once an accepted unit row is reached, its lower-case unit stays, even when a later row fails |
| ValidateShipment.ShipmentFromAccepted | src/ValidateShipment.php:345-522 | a successful loop means every row was accepted |
| ValidateShipment.StoreStep | src/ValidateShipment.php:521 | storing one row extends the projection by that row's entry and keeps later keys unset |
| ValidateShipment.ShipmentFromResult | src/ValidateShipment.php:345-532 | with every row accepted, the loop returns the value check of the prefix followed by the projection |
| ValidateShipment.ShipmentProjectionKeys | src/ValidateShipment.php:521 | every key in the projection from row k on is the key of a row at or after k whose trimmed text is non-empty |
| ValidateShipment.FindInShipmentProjection | src/ValidateShipment.php:521 | looking up a row's key gives its stored value when its text is non-empty, and nothing otherwise |
| ValidateShipment.ShipmentFieldsOutcome | src/ValidateShipment.php:337-533 | the row loop succeeds exactly when every row is accepted and a value field is set, and then returns the projection |
| ValidateShipment.DimCount | src/ValidateShipment.php:217-219 | the dimension count is 0 exactly when no dimension is set, and 3 exactly when all are |
| ValidateShipment.DimensionStep | src/ValidateShipment.php:217-297 | the dimension step: one or two dimensions fail, three are converted, checked and written back, none leave the record |
| ValidateShipment.WeightStep | src/ValidateShipment.php:299-318 | the weight step: converted to kilograms, range-checked against the minimum and the service maximum, written back |
| ValidateShipment.ShipmentSpec | src/ValidateShipment.php:60-321 | shipment(): the table run, then the dimension and weight steps under the units the run left |
| ValidateShipment.CheckDimensions | src/ValidateShipment.php:248-296 | the range checks and then the girth check pass exactly when each dimension lies in its range and length + 2 × (width + height) is at most 300; a failure is out-of-range or sum-exceeded |
| ValidateShipment.DimensionSteps | src/ValidateShipment.php:217-297 | the dimension post-processing passes exactly when 0 or 3 dimensions are set and three set ones fit once in centimetres under the current unit; it keeps the weight, and a failure is incomplete, out-of-range or sum-exceeded |
| ValidateShipment.WeightSteps | src/ValidateShipment.php:299-318 | the weight post-processing passes exactly when the weight in kilograms lies between the minimum and the service maximum; it stores that weight, keeps every other key, and otherwise fails as weight out of range |
| ValidateShipment.Shipment | src/ValidateShipment.php:60-321 | shipment() equals its specification: the result and the new unit fields |
| ValidateShipment.WithDimensionsCmKeeps | src/ValidateShipment.php:231-240 | the three dimensions are replaced by their centimetre values and every other key is unchanged |
| ValidateShipment.DimensionCheckFits | src/ValidateShipment.php:248-296 | the dimension check passes exactly when each dimension is in range and the girth is at most 300 |
| ValidateShipment.DimensionStepOutcome | src/ValidateShipment.php:217-297 | the dimension step passes exactly when 0 or 3 dimensions are set and three set ones fit in centimetres; it keeps the weight and names the failing check |
| ValidateShipment.FinishShipmentOutcome | src/ValidateShipment.php:217-321 | post-processing passes exactly when the dimensions pass and the weight in kilograms lies between the minimum and the service maximum |
| ValidateShipment.FinishShipmentStores | src/ValidateShipment.php:231-320 | the result holds the weight in kilograms and three dimensions in centimetres (or none), and every other key unchanged |
| ValidateShipment.ValueRows | src/ValidateShipment.php:63-214 | rows 11 and 12 are the value and shipment_value fields |
| ValidateShipment.ValueCheckOfProjection | src/ValidateShipment.php:525-530 | the value check passes exactly when the value or the shipment value text is non-empty |
| ValidateShipment.ShipmentRunOutcome | src/ValidateShipment.php:60-321 | for any field table, the run succeeds exactly when every row is accepted, a value is given and post-processing passes, and then returns the post-processed projection |
| ValidateShipment.ShipmentOutcome | src/ValidateShipment.php:60-321 | shipment() succeeds exactly when every row is accepted, a value is given and post-processing passes under the units the rows set; the units are those written by the row loop |
| ValidateShipment.OnlyRowWithKey | src/ValidateShipment.php:63-214 | with distinct keys, a row is the only row with its key |
| ValidateShipment.RunUnits | src/ValidateShipment.php:404-427 | the units stay valid, stay unchanged without unit text, and become the lower-case text once the unit row is passed |
| ValidateShipment.UnitRows | src/ValidateShipment.php:63-214 | rows 6 and 10 are the weight and dimension unit rows, 2 characters long |
| ValidateShipment.ShipmentUnitsOutcome | src/ValidateShipment.php:404-427 | after shipment() the units are valid, unchanged without unit text, and the lower-case unit text once the rows up to the unit row pass |
| ValidateShipment.RunStoresText | src/ValidateShipment.php:356-521 | an accepted run stores each string row's normalised text, which passes its key check and fits its length, or nothing when the text is empty |
| ValidateShipment.ProjectionNumber | src/ValidateShipment.php:370-521 | an accepted number row stores its numeric value when its text is non-empty, and nothing otherwise |
| ValidateShipment.RunWeight | src/ValidateShipment.php:299-318 | an accepted run has a numeric weight, stored in kilograms and within the minimum and the service maximum |
| ValidateShipment.ProjectionCm | src/ValidateShipment.php:231-240 | a stored dimension in centimetres is its numeric text converted by the dimension unit |
| ValidateShipment.ProjectionDimensions | src/ValidateShipment.php:217-240 | the dimension count is 0 or 3 exactly when none or all of the dimension texts are given |
| ValidateShipment.RunDimensions | src/ValidateShipment.php:217-297 | an accepted run has all or none of the dimensions; if all, they are numeric, stored in centimetres and fit the limits |
| ValidateShipment.MeasureRows | src/ValidateShipment.php:63-214 | the table's weight, length, width and height rows and their limits |
| ValidateShipment.ShipmentStoresText | src/ValidateShipment.php:356-521 | an accepted shipment stores each string field's normalised, checked text, or nothing when it is empty |
| ValidateShipment.ShipmentMeasures | src/ValidateShipment.php:217-318 | an accepted shipment has its weight in kilograms within limits, and all or none of its dimensions, in centimetres and within limits |

## Left out

- The email check is a parameter `isEmail` of the address operations. `FILTER_VALIDATE_EMAIL` is not re-implemented.
- PHP's `(string)` casts of non-string input values are not modelled. A raw record maps names to strings, and a missing or null value reads as the empty string.
- Service field limits are natural numbers or non-numeric text. Fractional and negative numeric limits are not modelled.
- Floats are exact reals. IEEE rounding error in the unit conversions and in the sums is not modelled. `round(x, 2)` is modelled as half-away-from-zero on exact values.
- Exception messages are not modelled. A failure carries its kind, field name and prefix only.
- The `['response']['ServiceInfo']` wrapper of the service response is replaced by a `ServiceInfo` value.
- The API client, the courier class and the entry script are not part of this model.
- Only the string rows run the key-specific checks (date, units, codes, tax numbers, country). No table gives those keys another type, and under strict types PHP would raise a type error there.
- `AllowedServices` and `SupportedCountries` entries are strings. Non-string entries, which strict `in_array` would never match, are not modelled.
- The per-product weight cap (src/ValidateProduct.php:137, 189-191) is not modelled. It writes a local copy of the row and never takes effect.
- The "application error" branch of validateProduct (src/ValidateProduct.php:194-198) is not modelled. The product table has no row of another type.
- The min and max of number rows (`Value`, `ShipmentValue`, product `Weight` and `Value`) are never checked by the field loops. The model keeps this source behaviour, see `ValidateProduct.NumberRowsUnbounded`.
- Each PHP validator object has its own unit fields (src/Validate.php:73-75). The model shares one `Validator`, so it does not capture two separate objects.
- The product weight is rounded after an exact multiplication. IEEE rounding of `weight * 0.453592` before `round()` is not modelled.
