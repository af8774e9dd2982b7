/** The PHP built-ins the validators depend on, each stated for the inputs the
    validators give it: strings are sequences of code points, numbers are
    unbounded reals and integers (no IEEE artefacts). */
module Php {

  datatype Option<T> = None | Some(value: T)

  // ---------------------------------------------------------------------------
  // trim() and the other whitespace sets

  /** The characters trim() strips by default: space, tab, LF, CR, NUL and vertical tab. */
  predicate IsTrimChar(c: char) {
    c == ' ' || c == '\t' || c == '\n' || c == '\r' || c == '\0' || c == '\U{0B}'
  }

  /** The whitespace FILTER_VALIDATE_INT strips: space, tab, CR, vertical tab, LF. */
  predicate IsFilterSpace(c: char) {
    c == ' ' || c == '\t' || c == '\r' || c == '\U{0B}' || c == '\n'
  }

  /** PCRE's \s outside UTF mode, which is also the whitespace is_numeric() allows
      around a number: tab, LF, vertical tab, form feed, CR and space. */
  predicate IsSpace(c: char) {
    c == ' ' || '\t' <= c <= '\r'
  }

  function TrimLeft(s: string): (r: string)
    ensures |r| <= |s|
    ensures r == [] || !IsTrimChar(r[0])
  {
    if s != [] && IsTrimChar(s[0]) then TrimLeft(s[1..]) else s
  }

  function TrimRight(s: string): (r: string)
    ensures |r| <= |s| && (r != [] ==> r[0] == s[0])
    ensures r == [] || !IsTrimChar(r[|r| - 1])
  {
    if s != [] && IsTrimChar(s[|s| - 1]) then TrimRight(s[..|s| - 1]) else s
  }

  /** PHP trim($s): drops trim characters from both ends. */
  function Trim(s: string): (r: string)
    ensures |r| <= |s|
    ensures r == [] || (!IsTrimChar(r[0]) && !IsTrimChar(r[|r| - 1]))
  {
    TrimRight(TrimLeft(s))
  }

  /** A string is its own trim exactly when neither end is a trim character. */
  lemma TrimFixpoint(s: string)
    ensures Trim(s) == s <==> (s == [] || (!IsTrimChar(s[0]) && !IsTrimChar(s[|s| - 1])))
  {
    if s != [] && !IsTrimChar(s[0]) && !IsTrimChar(s[|s| - 1]) {
      assert TrimLeft(s) == s;
      assert TrimRight(s) == s;
    }
  }

  lemma TrimIdempotent(s: string)
    ensures Trim(Trim(s)) == Trim(s)
  {
    TrimFixpoint(Trim(s));
  }

  /** TrimLeft drops exactly the leading trim characters. */
  lemma {:induction false} TrimLeftDrops(s: string)
    ensures var i := |s| - |TrimLeft(s)|;
      TrimLeft(s) == s[i..] && forall j :: 0 <= j < i ==> IsTrimChar(s[j])
  {
    if s != [] && IsTrimChar(s[0]) {
      TrimLeftDrops(s[1..]);
      assert s[1..][|s[1..]| - |TrimLeft(s[1..])|..] == s[|s| - |TrimLeft(s)|..];
    }
  }

  /** TrimRight drops exactly the trailing trim characters. */
  lemma {:induction false} TrimRightDrops(s: string)
    ensures var n := |TrimRight(s)|;
      TrimRight(s) == s[..n] && forall j :: n <= j < |s| ==> IsTrimChar(s[j])
  {
    if s != [] && IsTrimChar(s[|s| - 1]) {
      TrimRightDrops(s[..|s| - 1]);
      assert s[..|s| - 1][..|TrimRight(s)|] == s[..|TrimRight(s)|];
    }
  }

  /** trim() keeps the infix s[i..j] between the leading and the trailing trim
      characters; with the ends of the result not trim characters, this fixes
      the result. */
  lemma TrimSlice(s: string)
    ensures var i := |s| - |TrimLeft(s)|;
      var j := i + |Trim(s)|;
      j <= |s| && Trim(s) == s[i..j] &&
      (forall k :: 0 <= k < i ==> IsTrimChar(s[k])) &&
      (forall k :: j <= k < |s| ==> IsTrimChar(s[k]))
  {
    var t := TrimLeft(s);
    var i := |s| - |t|;
    TrimLeftDrops(s);
    TrimRightDrops(t);
    var j := i + |Trim(s)|;
    assert Trim(s) == t[..|Trim(s)|];
    assert t[..|Trim(s)|] == s[i..j];
    forall k | j <= k < |s|
      ensures IsTrimChar(s[k])
    {
      assert s[k] == t[k - i];
    }
  }

  /** PHP empty() on a string: true for "" and for "0". */
  predicate IsEmpty(s: string) {
    s == "" || s == "0"
  }

  // ---------------------------------------------------------------------------
  // Case mapping (PHP 8 strtoupper/strtolower touch ASCII letters only)

  predicate IsLower(c: char) { 'a' <= c <= 'z' }

  predicate IsUpperLetter(c: char) { 'A' <= c <= 'Z' }

  function UpperChar(c: char): char {
    if IsLower(c) then (c as int - 32) as char else c
  }

  function LowerChar(c: char): char {
    if IsUpperLetter(c) then (c as int + 32) as char else c
  }

  function Upper(s: string): (r: string)
    ensures |r| == |s|
  {
    if s == [] then [] else [UpperChar(s[0])] + Upper(s[1..])
  }

  function Lower(s: string): (r: string)
    ensures |r| == |s|
  {
    if s == [] then [] else [LowerChar(s[0])] + Lower(s[1..])
  }

  /** strtoupper() maps each character on its own. */
  lemma {:induction false} UpperEachChar(s: string)
    ensures forall i :: 0 <= i < |s| ==> Upper(s)[i] == UpperChar(s[i])
  {
    if s != [] {
      UpperEachChar(s[1..]);
      assert forall i :: 1 <= i < |s| ==> Upper(s)[i] == Upper(s[1..])[i - 1];
    }
  }

  /** strtolower() maps each character on its own. */
  lemma {:induction false} LowerEachChar(s: string)
    ensures forall i :: 0 <= i < |s| ==> Lower(s)[i] == LowerChar(s[i])
  {
    if s != [] {
      LowerEachChar(s[1..]);
      assert forall i :: 1 <= i < |s| ==> Lower(s)[i] == Lower(s[1..])[i - 1];
    }
  }

  /** strtoupper() leaves no lower-case ASCII letter behind and is idempotent. */
  lemma UpperHasNoLower(s: string)
    ensures forall i :: 0 <= i < |Upper(s)| ==> !IsLower(Upper(s)[i])
    ensures Upper(Upper(s)) == Upper(s)
  {
    UpperEachChar(s);
    UpperEachChar(Upper(s));
  }

  /** Upper-casing forgets the case of the input. */
  lemma UpperOfLower(s: string)
    ensures Upper(Lower(s)) == Upper(s)
  {
    UpperEachChar(s);
    LowerEachChar(s);
    UpperEachChar(Lower(s));
  }

  // ---------------------------------------------------------------------------
  // Lengths and substrings

  /** Number of bytes the code point takes in UTF-8. */
  function Utf8Width(c: char): nat {
    if c as int < 0x80 then 1 else if c as int < 0x800 then 2 else if c as int < 0x10000 then 3 else 4
  }

  /** strlen() of the UTF-8 encoding; mb_strlen() is plain |s|. */
  function ByteLength(s: string): nat {
    if s == [] then 0 else ByteLength(s[..|s| - 1]) + Utf8Width(s[|s| - 1])
  }

  predicate IsAscii(s: string) {
    forall i :: 0 <= i < |s| ==> s[i] as int < 0x80
  }

  /** strlen() never undercounts mb_strlen() and agrees with it exactly on ASCII text. */
  lemma {:induction false} ByteLengthBounds(s: string)
    ensures ByteLength(s) >= |s|
    ensures ByteLength(s) == |s| <==> IsAscii(s)
  {
    if s != [] {
      var p := s[..|s| - 1];
      ByteLengthBounds(p);
      if ByteLength(s) == |s| {
        assert IsAscii(p) && s[|s| - 1] as int < 0x80;
        assert forall i :: 0 <= i < |s| ==> s[i] as int < 0x80 by {
          forall i | 0 <= i < |s| ensures s[i] as int < 0x80 {
            if i < |s| - 1 { assert s[i] == p[i]; }
          }
        }
      }
      if IsAscii(s) {
        assert forall i :: 0 <= i < |p| ==> p[i] == s[i];
        assert IsAscii(p);
      }
    }
  }

  /** The byte-length test `strlen($v) === 2` holds of two ASCII characters or of
      one character that takes two bytes. */
  lemma TwoBytes(s: string)
    ensures ByteLength(s) == 2 <==>
      (|s| == 2 && IsAscii(s)) || (|s| == 1 && Utf8Width(s[0]) == 2)
  {
    if |s| >= 3 {
      ByteLengthBounds(s);
    } else if |s| == 2 {
      assert s[..1][..0] == [];
      if IsAscii(s) {
        assert s[0] as int < 0x80 && s[1] as int < 0x80;
      }
    } else if |s| == 1 {
      assert s[..0] == [];
    }
  }

  predicate StartsWith(s: string, p: string) {
    |p| <= |s| && s[..|p|] == p
  }

  /** strpos($s, $p) !== false. */
  predicate Contains(s: string, p: string)
    decreases |s|
  {
    StartsWith(s, p) || (s != [] && Contains(s[1..], p))
  }

  /** A text shorter than the needle does not contain it. */
  lemma {:induction false} ShorterContainsNothing(s: string, p: string)
    requires |s| < |p|
    ensures !Contains(s, p)
  {
    if s != [] {
      ShorterContainsNothing(s[1..], p);
    }
  }

  /** preg_replace('/\s+/', '', $s). */
  function RemoveSpaces(s: string): (r: string)
    ensures |r| <= |s|
    ensures forall i :: 0 <= i < |r| ==> !IsSpace(r[i])
  {
    if s == [] then []
    else if IsSpace(s[0]) then RemoveSpaces(s[1..])
    else [s[0]] + RemoveSpaces(s[1..])
  }

  /** Removing white space works piece by piece and keeps every other
      character in order: a one-character text loses its character exactly
      when it is white space, and a concatenation is cleaned part by part. */
  lemma {:induction false} RemoveSpacesSplits(a: string, b: string)
    ensures |a| == 1 ==> RemoveSpaces(a) == if IsSpace(a[0]) then [] else a
    ensures RemoveSpaces(a + b) == RemoveSpaces(a) + RemoveSpaces(b)
  {
    if a != [] {
      assert (a + b)[0] == a[0] && (a + b)[1..] == a[1..] + b;
      RemoveSpacesSplits(a[1..], b);
    } else {
      assert a + b == b;
    }
  }

  /** Removing white space from a text that has none leaves it as it is. */
  lemma {:induction false} RemoveSpacesOfSpaceFree(s: string)
    requires forall i :: 0 <= i < |s| ==> !IsSpace(s[i])
    ensures RemoveSpaces(s) == s
  {
    if s != [] {
      assert forall i :: 0 <= i < |s[1..]| ==> s[1..][i] == s[i + 1];
      RemoveSpacesOfSpaceFree(s[1..]);
      assert s == [s[0]] + s[1..];
    }
  }

  // ---------------------------------------------------------------------------
  // Decimal digits

  predicate IsDigit(c: char) { '0' <= c <= '9' }

  predicate AllDigits(s: string) {
    forall i :: 0 <= i < |s| ==> IsDigit(s[i])
  }

  function DigitsValue(s: string): nat
    requires AllDigits(s)
  {
    if s == [] then 0 else DigitsValue(s[..|s| - 1]) * 10 + (s[|s| - 1] as int - '0' as int)
  }

  function DigitChar(d: nat): (c: char)
    requires d < 10
    ensures IsDigit(c) && c as int - '0' as int == d
  {
    ('0' as int + d) as char
  }

  /** The decimal representation PHP prints for a non-negative integer. */
  function NatToString(n: nat): (s: string)
    ensures |s| >= 1 && AllDigits(s)
  {
    if n < 10 then [DigitChar(n)] else NatToString(n / 10) + [DigitChar(n % 10)]
  }

  /** Printing then reading back a natural number gives it back, and the printed
      form has no leading zero. */
  lemma {:induction false} NatToStringRoundTrip(n: nat)
    ensures DigitsValue(NatToString(n)) == n
    ensures n > 0 ==> NatToString(n)[0] != '0'
  {
    if n >= 10 {
      NatToStringRoundTrip(n / 10);
      var s := NatToString(n);
      assert s[..|s| - 1] == NatToString(n / 10);
    }
  }

  function Pow10(n: nat): (p: nat)
    ensures p >= 1
  {
    if n == 0 then 1 else 10 * Pow10(n - 1)
  }

  function DigitEnd(s: string, i: nat): (j: nat)
    requires i <= |s|
    ensures i <= j <= |s| && AllDigits(s[i..j]) && (j == |s| || !IsDigit(s[j]))
    decreases |s| - i
  {
    if i < |s| && IsDigit(s[i]) then DigitEnd(s, i + 1) else i
  }

  function SpaceEnd(s: string, i: nat): (j: nat)
    requires i <= |s|
    ensures i <= j <= |s| && (j == |s| || !IsSpace(s[j]))
    ensures forall k :: i <= k < j ==> IsSpace(s[k])
    decreases |s| - i
  {
    if i < |s| && IsSpace(s[i]) then SpaceEnd(s, i + 1) else i
  }

  // ---------------------------------------------------------------------------
  // is_numeric() and the (float) cast of a numeric string

  /** is_numeric($s) for a string, with the value (float) gives it: optional
      surrounding whitespace, an optional sign, digits with an optional decimal
      point (at least one digit), an optional exponent. None when not numeric. */
  function ParseNumeric(s: string): Option<real>
  {
    var a := SpaceEnd(s, 0);
    var b := if a < |s| && (s[a] == '+' || s[a] == '-') then a + 1 else a;
    var c := DigitEnd(s, b);
    var d := if c < |s| && s[c] == '.' then c + 1 else c;
    var e := if d == c then c else DigitEnd(s, d);
    var hasExp := e < |s| && (s[e] == 'e' || s[e] == 'E');
    var g := if hasExp && e + 1 < |s| && (s[e + 1] == '+' || s[e + 1] == '-') then e + 2 else e + 1;
    var h := if hasExp then DigitEnd(s, g) else e;
    var expOk := hasExp && h > g;
    var f := if expOk then h else e;
    if (c > b || e > d) && SpaceEnd(s, f) == |s| then
      var mantissa := DigitsValue(s[b..c]) as real + DigitsValue(s[d..e]) as real / Pow10(e - d) as real;
      var exp: int := if !expOk then 0 else if s[e + 1] == '-' then -(DigitsValue(s[g..h]) as int) else DigitsValue(s[g..h]);
      var magnitude := if exp >= 0 then mantissa * Pow10(exp) as real else mantissa / Pow10(-exp) as real;
      Some(if a < |s| && s[a] == '-' then -magnitude else magnitude)
    else
      None
  }

  predicate IsNumeric(s: string) {
    ParseNumeric(s).Some?
  }

  /** The (float) value of a numeric string. */
  function NumericValue(s: string): real
    requires IsNumeric(s)
  {
    ParseNumeric(s).value
  }

  /** A string of plain digits is numeric and has its decimal value. */
  lemma {:induction false} DigitsAreNumeric(s: string)
    requires s != [] && AllDigits(s)
    ensures ParseNumeric(s) == Some(DigitsValue(s) as real)
  {
    assert SpaceEnd(s, 0) == 0;
    DigitsRunToEnd(s, 0);
    assert s[0..|s|] == s;
  }

  lemma {:induction false} DigitsRunToEnd(s: string, i: nat)
    requires i <= |s| && AllDigits(s)
    ensures DigitEnd(s, i) == |s|
    decreases |s| - i
  {
    if i < |s| { DigitsRunToEnd(s, i + 1); }
  }

  // ---------------------------------------------------------------------------
  // filter_var($s, FILTER_VALIDATE_INT)

  const PhpIntMax: int := 0x7FFF_FFFF_FFFF_FFFF
  const PhpIntMin: int := -0x8000_0000_0000_0000

  function FilterTrimLeft(s: string): (r: string)
    ensures |r| <= |s|
    ensures r == [] || !IsFilterSpace(r[0])
  {
    if s != [] && IsFilterSpace(s[0]) then FilterTrimLeft(s[1..]) else s
  }

  function FilterTrimRight(s: string): (r: string)
    ensures |r| <= |s|
    ensures r == [] || !IsFilterSpace(r[|r| - 1])
  {
    if s != [] && IsFilterSpace(s[|s| - 1]) then FilterTrimRight(s[..|s| - 1]) else s
  }

  /** The filter's left trim drops exactly the leading filter whitespace. */
  lemma {:induction false} FilterTrimLeftDrops(s: string)
    ensures var i := |s| - |FilterTrimLeft(s)|;
      FilterTrimLeft(s) == s[i..] && forall j :: 0 <= j < i ==> IsFilterSpace(s[j])
  {
    if s != [] && IsFilterSpace(s[0]) {
      FilterTrimLeftDrops(s[1..]);
      assert s[1..][|s[1..]| - |FilterTrimLeft(s[1..])|..] == s[|s| - |FilterTrimLeft(s)|..];
    }
  }

  /** The filter's right trim drops exactly the trailing filter whitespace. */
  lemma {:induction false} FilterTrimRightDrops(s: string)
    ensures var n := |FilterTrimRight(s)|;
      FilterTrimRight(s) == s[..n] && forall j :: n <= j < |s| ==> IsFilterSpace(s[j])
  {
    if s != [] && IsFilterSpace(s[|s| - 1]) {
      FilterTrimRightDrops(s[..|s| - 1]);
      assert s[..|s| - 1][..|FilterTrimRight(s)|] == s[..|FilterTrimRight(s)|];
    }
  }

  /** filter_var($s, FILTER_VALIDATE_INT): after stripping surrounding whitespace,
      an optional sign then "0" or a digit string without a leading zero, within
      the 64-bit range. None stands for PHP's false. */
  function FilterInt(s: string): (r: Option<int>)
    ensures r.Some? ==> PhpIntMin <= r.value <= PhpIntMax
  {
    var t := FilterTrimRight(FilterTrimLeft(s));
    if t == [] then None
    else
      var body := if t[0] == '-' || t[0] == '+' then t[1..] else t;
      if body == "0" then Some(0)
      else if body != [] && body[0] != '0' && AllDigits(body) then
        var n: int := if t[0] == '-' then -(DigitsValue(body) as int) else DigitsValue(body);
        if PhpIntMin <= n <= PhpIntMax then Some(n) else None
      else None
  }

  /** The integer filter reads back exactly what PHP prints for a positive integer. */
  lemma FilterIntRoundTrip(n: nat)
    requires n <= PhpIntMax
    ensures FilterInt(NatToString(n)) == Some(n)
  {
    var s := NatToString(n);
    NatToStringRoundTrip(n);
    assert !IsFilterSpace(s[0]) && !IsFilterSpace(s[|s| - 1]);
    assert FilterTrimLeft(s) == s;
    assert FilterTrimRight(s) == s;
    if n < 10 {
      assert s == [DigitChar(n)];
    }
  }

  /** A digit string with a non-zero leading digit has a positive value. */
  lemma {:induction false} LeadingDigitPositive(p: string)
    requires p != [] && AllDigits(p) && p[0] != '0'
    ensures DigitsValue(p) >= 1
  {
    if |p| > 1 {
      LeadingDigitPositive(p[..|p| - 1]);
    }
  }

  /** A digit string without a leading zero, or "0" itself, is exactly what PHP
      prints for its value. */
  lemma {:induction false} CanonicalDigits(b: string)
    requires b != [] && AllDigits(b) && (b == "0" || b[0] != '0')
    ensures NatToString(DigitsValue(b)) == b
  {
    var d := b[|b| - 1] as int - '0' as int;
    if |b| == 1 {
      assert b[..0] == [];
      assert DigitChar(d) == b[0];
    } else {
      var p := b[..|b| - 1];
      LeadingDigitPositive(p);
      CanonicalDigits(p);
      var v := DigitsValue(b);
      assert v == DigitsValue(p) * 10 + d;
      assert v / 10 == DigitsValue(p) && v % 10 == d;
      assert DigitChar(d) == b[|b| - 1];
      assert b == p + [b[|b| - 1]];
    }
  }

  /** Every text the integer filter accepts is, once its surrounding white
      space is stripped, PHP's printed form of the value, with an optional
      "+" before a non-negative value or a "-" before a non-positive one: no
      leading zeros, no other sign forms, nothing else. */
  lemma FilterIntAccepts(s: string)
    requires FilterInt(s).Some?
    ensures var t := FilterTrimRight(FilterTrimLeft(s));
      var v := FilterInt(s).value;
      (v >= 0 && (t == NatToString(v) || t == "+" + NatToString(v))) ||
      (v <= 0 && t == "-" + NatToString(-v))
  {
    var t := FilterTrimRight(FilterTrimLeft(s));
    var body := if t[0] == '-' || t[0] == '+' then t[1..] else t;
    assert NatToString(0) == "0";
    if body != "0" {
      CanonicalDigits(body);
    }
    if t[0] == '-' || t[0] == '+' {
      assert t == [t[0]] + body;
    }
  }

  /** Text with no filter whitespace at either end is not trimmed. */
  lemma FilterTrimsNothing(t: string)
    requires t != [] && !IsFilterSpace(t[0]) && !IsFilterSpace(t[|t| - 1])
    ensures FilterTrimRight(FilterTrimLeft(t)) == t
  {
  }

  /** The text of a sign ("", "+" or "-") and a digit string is not trimmed,
      and the filter reads the digit string as its body. */
  lemma SignedBody(sign: string, s: string)
    requires sign == "" || sign == "+" || sign == "-"
    requires s != [] && AllDigits(s)
    ensures var t := sign + s;
      FilterTrimRight(FilterTrimLeft(t)) == t &&
      (if t[0] == '-' || t[0] == '+' then t[1..] else t) == s &&
      (t[0] == '-' <==> sign == "-")
  {
    var t := sign + s;
    assert t[|t| - 1] == s[|s| - 1];
    assert t[0] == if sign == "" then s[0] else sign[0];
    FilterTrimsNothing(t);
  }

  /** The filter on a sign ("", "+" or "-") followed by PHP's printed form of n. */
  lemma FilterIntOfForm(sign: string, n: nat)
    requires sign == "" || sign == "+" || sign == "-"
    ensures var v: int := if sign == "-" then -(n as int) else n;
      FilterInt(sign + NatToString(n)) == if PhpIntMin <= v <= PhpIntMax then Some(v) else None
  {
    var s := NatToString(n);
    SignedBody(sign, s);
    if n == 0 {
      assert s == "0";
    } else {
      NatToStringRoundTrip(n);
    }
  }

  /** The filter accepts PHP's printed form of n, bare or with either sign,
      exactly when the signed value fits in 64 bits. */
  lemma FilterIntSigns(n: nat)
    ensures FilterInt(NatToString(n)) == if n <= PhpIntMax then Some(n) else None
    ensures FilterInt("+" + NatToString(n)) == if n <= PhpIntMax then Some(n) else None
    ensures FilterInt("-" + NatToString(n)) == if n <= -PhpIntMin then Some(-(n as int)) else None
  {
    FilterIntOfForm("", n);
    assert "" + NatToString(n) == NatToString(n);
    FilterIntOfForm("+", n);
    FilterIntOfForm("-", n);
  }

  // ---------------------------------------------------------------------------
  // DateTime::createFromFormat('Y-m-d', $s) followed by ->format('Y-m-d') === $s

  predicate IsLeapYear(y: nat) {
    (y % 4 == 0 && y % 100 != 0) || y % 400 == 0
  }

  function DaysInMonth(y: nat, m: nat): nat {
    if m == 2 then (if IsLeapYear(y) then 29 else 28)
    else if m == 4 || m == 6 || m == 9 || m == 11 then 30
    else 31
  }

  /** The strings that survive the parse-then-format round trip: four-digit year,
      two-digit month and day, an existing calendar day. */
  predicate IsDate(s: string) {
    |s| == 10 && s[4] == '-' && s[7] == '-' &&
    AllDigits(s[..4]) && AllDigits(s[5..7]) && AllDigits(s[8..]) &&
    var y, m, d := DigitsValue(s[..4]), DigitsValue(s[5..7]), DigitsValue(s[8..]);
    1 <= m <= 12 && 1 <= d <= DaysInMonth(y, m)
  }

  // ---------------------------------------------------------------------------
  // round($x, 2): half away from zero

  /** Rounds a non-negative number to two decimals, halves going up. */
  function RoundHalfUp2(y: real): (r: real)
    requires y >= 0.0
    ensures r >= 0.0
    ensures -1.0 / 200.0 < r - y <= 1.0 / 200.0
    ensures (r * 100.0).Floor as real == r * 100.0
  {
    var z := y * 100.0 + 0.5;
    var k := z.Floor;
    assert k as real <= z < k as real + 1.0;
    var r := k as real / 100.0;
    assert r * 100.0 == k as real;
    assert (k as real).Floor == k;
    r
  }

  /** PHP round($x, 2): the nearest whole number of cents, halves away from
      zero (up for x >= 0, down for x < 0). */
  function Round2(x: real): (r: real)
    ensures x >= 0.0 ==> -1.0 / 200.0 < r - x <= 1.0 / 200.0
    ensures x < 0.0 ==> -1.0 / 200.0 <= r - x < 1.0 / 200.0
    ensures (r * 100.0).Floor as real == r * 100.0
    ensures x >= 0.0 ==> r >= 0.0
  {
    if x >= 0.0 then RoundHalfUp2(x)
    else
      var m := RoundHalfUp2(-x);
      var k := (m * 100.0).Floor;
      assert (-m * 100.0) == -(k as real);
      assert (-m * 100.0).Floor == -k;
      -m
  }

  /** The window and the cent grid fix round(x, 2): any whole number of cents
      in the same half-open window around x is Round2(x). */
  lemma Round2Unique(x: real, c: real)
    requires (c * 100.0).Floor as real == c * 100.0
    requires x >= 0.0 ==> -1.0 / 200.0 < c - x <= 1.0 / 200.0
    requires x < 0.0 ==> -1.0 / 200.0 <= c - x < 1.0 / 200.0
    ensures c == Round2(x)
  {
    var r := Round2(x);
    assert -1.0 < c * 100.0 - r * 100.0 < 1.0;
    assert (c * 100.0).Floor == (r * 100.0).Floor;
  }

  // ---------------------------------------------------------------------------
  // PHP 8 comparison of an integer with a non-numeric string

  /** `$a > $b` on strings: byte-wise comparison, a proper prefix is smaller.
      Code-point order on UTF-8 text is byte order. */
  predicate StrGreater(a: string, b: string) {
    if a == [] then false
    else if b == [] then true
    else if a[0] != b[0] then a[0] > b[0]
    else StrGreater(a[1..], b[1..])
  }

  /** `$n > $t` for a non-negative integer and a non-numeric string: PHP 8
      compares the integer's decimal form with the string. */
  predicate IntGreaterThanText(n: nat, t: string) {
    StrGreater(NatToString(n), t)
  }

  /** `$t > $n` for the same pair. */
  predicate TextGreaterThanInt(t: string, n: nat) {
    StrGreater(t, NatToString(n))
  }
}
