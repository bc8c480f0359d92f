/**
 * The validation rules the NumberInput control hands to the form library
 * (`getValidationRules` in src/components/ui/inputs/NumberInput/NumberInput.tsx):
 * the `required` message, the built-in `validate` checks (length, range, Indian
 * phone, Aadhaar and card digit counts) and the caller's own rules spread over
 * them. A check answers `true` or an error message; the model's `Verdict` is
 * `Pass` or `Fail(message)`.
 */
module Validation {
  import opened Wrappers
  import opened JsString
  import opened FormControls
  import opened NumberInput

  /** The props the rules read, besides those of the formatting engine. */
  datatype RuleProps = RuleProps(
    input: Props,
    required: bool,
    fieldLabel: Option<string>,
    min: Option<int>,
    max: Option<int>)

  /** The built-in checks, by what they test. */
  datatype Check = LengthCheck | RangeCheck | PhoneLengthCheck | AadhaarLengthCheck | CardLengthCheck

  /**
   * A rule value: `false`, a message, the map of built-in checks, or a value the
   * caller supplied that the control never looks into.
   */
  datatype RuleValue =
    | Off
    | Message(text: string)
    | Validators(checks: seq<(string, Check)>)
    | Custom(id: string)

  datatype Verdict = Pass | Fail(message: string)

  // ---------------------------------------------------------------------------
  // Reading numbers

  /** The longest prefix of decimal digits. */
  function DigitPrefix(s: string): (r: string)
    ensures r <= s && AllDigits(r)
    ensures |r| < |s| ==> !IsDigit(s[|r|])
  {
    if s == [] || !IsDigit(s[0]) then []
    else
      var rest := DigitPrefix(s[1..]);
      assert [s[0]] + rest <= s;
      [s[0]] + rest
  }

  function DigitValue(c: char): nat
    requires IsDigit(c)
  {
    c as int - '0' as int
  }

  /** The number a string of decimal digits denotes. */
  function DigitsValue(d: string): nat
    requires AllDigits(d)
  {
    if d == [] then 0
    else
      assert d[|d| - 1] in d;
      DigitsValue(d[..|d| - 1]) * 10 + DigitValue(d[|d| - 1])
  }

  function Pow10(n: nat): (r: nat)
    ensures r > 0
  {
    if n == 0 then 1 else 10 * Pow10(n - 1)
  }

  /**
   * `parseInt(s, 10)` on the characters a cleaned value can hold: an optional
   * sign, then the longest run of digits; no digits is `NaN` (`None`).
   */
  function ParseInt(s: string): (r: Option<int>)
    ensures r.None? <==> DigitPrefix(if s != [] && (s[0] == '-' || s[0] == '+') then s[1..] else s) == []
  {
    var negative := s != [] && s[0] == '-';
    var rest := if s != [] && (s[0] == '-' || s[0] == '+') then s[1..] else s;
    var digits := DigitPrefix(rest);
    if digits == [] then None
    else
      var magnitude: int := DigitsValue(digits);
      Some(if negative then -magnitude else magnitude)
  }

  /** `parseInt` on a run of digits, with or without a minus sign in front. */
  lemma ParseIntOfDigits(d: string)
    requires d != [] && AllDigits(d)
    ensures ParseInt(d) == Some(DigitsValue(d) as int)
    ensures ParseInt("-" + d) == Some(-(DigitsValue(d) as int))
  {
    DigitPrefixOfDigits(d);
    assert d[0] in d;
    assert ("-" + d)[1..] == d;
  }

  /** An exact decimal: `units / 10^scale`. */
  datatype Decimal = Decimal(units: int, scale: nat)

  /** The decimal is below the integer `m`. */
  predicate Below(d: Decimal, m: int) {
    d.units < m * Pow10(d.scale)
  }

  /** The decimal is above the integer `m`. */
  predicate Above(d: Decimal, m: int) {
    d.units > m * Pow10(d.scale)
  }

  /**
   * `parseFloat(s)` on the characters a cleaned value can hold: an optional sign,
   * an integer run, optionally a point and a fraction run; no digit in either run
   * is `NaN` (`None`). The value is the exact decimal, not its binary rounding.
   */
  function ParseFloat(s: string): (r: Option<Decimal>)
    ensures var rest := if s != [] && (s[0] == '-' || s[0] == '+') then s[1..] else s;
      r.None? <==> DigitPrefix(rest) == [] && !(|rest| > 1 && rest[0] == '.' && IsDigit(rest[1]))
    ensures r.Some? && s[0] == '-' ==> r.value.units <= 0
    ensures r.Some? && s[0] != '-' ==> r.value.units >= 0
  {
    var negative := s != [] && s[0] == '-';
    var rest := if s != [] && (s[0] == '-' || s[0] == '+') then s[1..] else s;
    match ReadDecimal(rest)
    case None => None
    case Some(magnitude) => Some(if negative then Decimal(-magnitude.units, magnitude.scale) else magnitude)
  }

  /**
   * The unsigned part of `parseFloat`: an integer run, then a point and a fraction
   * run; the digits of both runs, read as one number, over ten to the length of
   * the fraction.
   */
  function ReadDecimal(s: string): (r: Option<Decimal>)
    ensures r.None? <==> DigitPrefix(s) == [] && !(|s| > 1 && s[0] == '.' && IsDigit(s[1]))
    ensures r.Some? ==> r.value.units >= 0
  {
    var whole := DigitPrefix(s);
    var after := s[|whole|..];
    var fraction := if after != [] && after[0] == '.' then DigitPrefix(after[1..]) else [];
    if whole == [] && fraction == [] then None
    else
      assert AllDigits(whole + fraction);
      Some(Decimal(DigitsValue(whole + fraction), |fraction|))
  }

  /** A digit string is its own longest digit prefix. */
  lemma {:induction false} DigitPrefixOfDigits(d: string)
    requires AllDigits(d)
    ensures DigitPrefix(d) == d
  {
    if d != [] {
      assert d[0] in d;
      assert AllDigits(d[1..]) by {
        forall c | c in d[1..] ensures IsDigit(c) {
          assert c in d;
        }
      }
      DigitPrefixOfDigits(d[1..]);
    }
  }

  /** Reading the decimal rendering of a natural number gives it back. */
  lemma {:induction false} DigitsValueOfRendering(n: nat)
    ensures DigitsValue(NatToString(n)) == n
  {
    if n >= 10 {
      DigitsValueOfRendering(n / 10);
      var s := NatToString(n);
      assert s[..|s| - 1] == NatToString(n / 10);
    }
  }

  /** `parseInt` reads back an integer interpolated into a string. */
  lemma ParseIntRoundTrip(n: int)
    ensures ParseInt(IntToString(n)) == Some(n)
  {
    var m: nat := if n < 0 then -n else n;
    ParseIntOfDigits(NatToString(m));
    DigitsValueOfRendering(m);
  }

  /** `parseFloat` reads a point-free integer rendering as that integer. */
  lemma ParseFloatOfInteger(n: int)
    ensures ParseFloat(IntToString(n)) == Some(Decimal(n, 0))
  {
    var m: nat := if n < 0 then -n else n;
    var d := NatToString(m);
    ReadDecimalOfDigits(d);
    DigitsValueOfRendering(m);
    assert d[0] in d;
    if n < 0 {
      var s := IntToString(n);
      assert s == "-" + d && s[0] == '-';
      assert s[1..] == d;
      assert ReadDecimal(s[1..]) == Some(Decimal(m, 0));
    } else {
      assert IntToString(n) == d;
      ParseFloatUnsigned(d);
    }
  }

  /** The unsigned reading of a run of digits is its value. */
  lemma ReadDecimalOfDigits(d: string)
    requires d != [] && AllDigits(d)
    ensures ReadDecimal(d) == Some(Decimal(DigitsValue(d), 0))
  {
    DigitPrefixOfDigits(d);
    assert d[|d|..] == [];
    assert d + [] == d;
  }

  /**
   * `parseFloat` reads digits, a point and digits as the digits read together
   * over ten to the length of the fraction; `DigitsValueConcat` splits the
   * numerator into the whole part shifted left and the fraction.
   */
  lemma ParseFloatOfDecimal(a: string, f: string)
    requires AllDigits(a) && AllDigits(f) && (a != [] || f != [])
    ensures AllDigits(a + f)
    ensures ParseFloat(a + "." + f) == Some(Decimal(DigitsValue(a + f), |f|))
  {
    var s := a + "." + f;
    assert s[0] != '-' && s[0] != '+' by {
      if a != [] {
        assert s[0] == a[0] && a[0] in a;
      }
    }
    ParseFloatUnsigned(s);
    ReadDecimalOfPointed(a, f);
  }

  /** Without a sign in front, `parseFloat` is the unsigned reading. */
  lemma ParseFloatUnsigned(s: string)
    requires s != [] && s[0] != '-' && s[0] != '+'
    ensures ParseFloat(s) == ReadDecimal(s)
  {
  }

  /** The unsigned reading of digits, a point and digits. */
  lemma ReadDecimalOfPointed(a: string, f: string)
    requires AllDigits(a) && AllDigits(f) && (a != [] || f != [])
    ensures AllDigits(a + f)
    ensures ReadDecimal(a + "." + f) == Some(Decimal(DigitsValue(a + f), |f|))
  {
    var s := a + "." + f;
    assert s == a + ("." + f);
    PrefixBeforeNonDigit(a, "." + f);
    assert s[|a|..] == "." + f;
    assert ("." + f)[1..] == f;
    DigitPrefixOfDigits(f);
  }

  /** Reading digits after digits shifts the first run by the length of the second. */
  lemma {:induction false} DigitsValueConcat(a: string, f: string)
    requires AllDigits(a) && AllDigits(f)
    ensures AllDigits(a + f)
    ensures DigitsValue(a + f) == DigitsValue(a) * Pow10(|f|) + DigitsValue(f)
  {
    if f != [] {
      var g := f[..|f| - 1];
      assert AllDigits(g) by {
        forall c | c in g ensures IsDigit(c) {
          assert c in f;
        }
      }
      DigitsValueConcat(a, g);
      var last := DigitValue(f[|f| - 1]);
      assert (a + f)[..|a + f| - 1] == a + g;
      assert (a + f)[|a + f| - 1] == f[|f| - 1];
      assert DigitsValue(a + f) == DigitsValue(a + g) * 10 + last;
      assert DigitsValue(f) == DigitsValue(g) * 10 + last;
      assert Pow10(|f|) == 10 * Pow10(|g|);
      ShiftByDigit(DigitsValue(a), Pow10(|g|), DigitsValue(g), last);
    } else {
      assert a + f == a;
    }
  }

  /** One more digit on the right multiplies the left run's weight by ten. */
  lemma ShiftByDigit(x: int, y: int, v: int, last: int)
    ensures (x * y + v) * 10 + last == x * (10 * y) + (v * 10 + last)
  {
  }

  /** The digit prefix stops at the first character that is not a digit. */
  lemma {:induction false} PrefixBeforeNonDigit(a: string, b: string)
    requires AllDigits(a) && (b == [] || !IsDigit(b[0]))
    ensures DigitPrefix(a + b) == a
  {
    if a == [] {
      assert a + b == b;
    } else {
      assert a[0] in a;
      assert AllDigits(a[1..]) by {
        forall c | c in a[1..] ensures IsDigit(c) {
          assert c in a;
        }
      }
      PrefixBeforeNonDigit(a[1..], b);
      assert (a + b)[1..] == a[1..] + b;
    }
  }

  // ---------------------------------------------------------------------------
  // The checks

  /** The number of digits of the cleaned value, which every count check measures. */
  function DigitCount(p: Props, value: string): nat {
    |Digits(CleanValue(p, value))|
  }

  /** The number the range check reads: `parseFloat` with decimals, `parseInt` otherwise. */
  function NumberOf(p: Props, value: string): Option<Decimal> {
    var cleaned := CleanValue(p, value);
    if p.allowDecimal then ParseFloat(cleaned)
    else
      match ParseInt(cleaned)
      case None => None
      case Some(n) => Some(Decimal(n, 0))
  }

  /** Running one built-in check on a form value. */
  function Run(c: Check, rp: RuleProps, value: string): (v: Verdict)
    ensures c == LengthCheck ==>
      (v.Pass? <==> DigitCount(rp.input, value) <= rp.input.maxLength)
    ensures c == PhoneLengthCheck ==> (v.Pass? <==> DigitCount(rp.input, value) == 10)
    ensures c == AadhaarLengthCheck ==> (v.Pass? <==> DigitCount(rp.input, value) == 12)
    ensures c == CardLengthCheck ==> (v.Pass? <==> 13 <= DigitCount(rp.input, value) <= 19)
    ensures c == RangeCheck ==>
      (v.Pass? <==>
        (NumberOf(rp.input, value).None? ||
          ((rp.min.None? || !Below(NumberOf(rp.input, value).value, rp.min.value)) &&
           (rp.max.None? || !Above(NumberOf(rp.input, value).value, rp.max.value)))))
    ensures v.Fail? && c == LengthCheck ==>
      v.message == "Maximum " + IntToString(rp.input.maxLength) + " digits allowed"
    ensures v.Fail? && c == RangeCheck ==>
      if rp.min.Some? && Below(NumberOf(rp.input, value).value, rp.min.value)
      then v.message == "Value must be at least " + IntToString(rp.min.value)
      else rp.max.Some? && v.message == "Value must be at most " + IntToString(rp.max.value)
    ensures v.Fail? && c == PhoneLengthCheck ==> v.message == "Phone number must be 10 digits"
    ensures v.Fail? && c == AadhaarLengthCheck ==> v.message == "Aadhaar number must be 12 digits"
    ensures v.Fail? && c == CardLengthCheck ==> v.message == "Card number must be 13-19 digits"
  {
    var count := DigitCount(rp.input, value);
    match c
    case LengthCheck =>
      if count <= rp.input.maxLength then Pass
      else Fail("Maximum " + IntToString(rp.input.maxLength) + " digits allowed")
    case RangeCheck =>
      var number := NumberOf(rp.input, value);
      if number.None? then Pass
      else if rp.min.Some? && Below(number.value, rp.min.value) then
        Fail("Value must be at least " + IntToString(rp.min.value))
      else if rp.max.Some? && Above(number.value, rp.max.value) then
        Fail("Value must be at most " + IntToString(rp.max.value))
      else Pass
    case PhoneLengthCheck =>
      if count == 10 then Pass else Fail("Phone number must be 10 digits")
    case AadhaarLengthCheck =>
      if count == 12 then Pass else Fail("Aadhaar number must be 12 digits")
    case CardLengthCheck =>
      if 13 <= count <= 19 then Pass else Fail("Card number must be 13-19 digits")
  }

  // ---------------------------------------------------------------------------
  // Building the rules

  /** The key each built-in check is stored under. */
  function NameOf(c: Check): string {
    match c
    case LengthCheck => "length"
    case RangeCheck => "range"
    case PhoneLengthCheck => "phoneLength"
    case AadhaarLengthCheck => "aadhaarLength"
    case CardLengthCheck => "cardLength"
  }

  /** The place of each check in the order `getValidationRules` adds them. */
  function Position(c: Check): nat {
    match c
    case LengthCheck => 0
    case RangeCheck => 1
    case PhoneLengthCheck => 2
    case AadhaarLengthCheck => 3
    case CardLengthCheck => 4
  }

  /** The entry of check `c`: its key and the check. */
  function Entry(c: Check): (string, Check) {
    (NameOf(c), c)
  }

  /** The check `c` is among the entries. */
  predicate Has(checks: seq<(string, Check)>, c: Check) {
    Entry(c) in checks
  }

  /**
   * The checks collected under `validate`, in the order the object's keys were
   * inserted (which is the order they are run in), each under its key.
   */
  function BuiltInChecks(rp: RuleProps): (m: seq<(string, Check)>)
    ensures Has(m, LengthCheck) <==> rp.input.maxLength != 0
    ensures Has(m, RangeCheck) <==> rp.min.Some? || rp.max.Some?
    ensures Has(m, PhoneLengthCheck) <==>
      rp.input.format == Some("PHONE_IN") || rp.input.format == Some("PHONE_IN_WITH_CODE")
    ensures Has(m, AadhaarLengthCheck) <==> rp.input.format == Some("AADHAAR")
    ensures Has(m, CardLengthCheck) <==> rp.input.format == Some("CARD")
    ensures forall e :: e in m ==> e == Entry(e.1)
    ensures InOrder(m)
  {
    var format := rp.input.format;
    Collect(rp.input.maxLength != 0, rp.min.Some? || rp.max.Some?,
            format == Some("PHONE_IN") || format == Some("PHONE_IN_WITH_CODE"),
            format == Some("AADHAAR"), format == Some("CARD"))
  }

  /** The `validate` entries, given which of the five checks apply, added in the source's order. */
  function Collect(length: bool, range: bool, phone: bool, aadhaar: bool, card: bool): (m: seq<(string, Check)>)
    ensures Has(m, LengthCheck) <==> length
    ensures Has(m, RangeCheck) <==> range
    ensures Has(m, PhoneLengthCheck) <==> phone
    ensures Has(m, AadhaarLengthCheck) <==> aadhaar
    ensures Has(m, CardLengthCheck) <==> card
    ensures forall e :: e in m ==> e == Entry(e.1)
    ensures InOrder(m)
  {
    var m1 := Add([], length, LengthCheck);
    assert Has(m1, LengthCheck) <==> length;
    assert !Has(m1, RangeCheck) && !Has(m1, PhoneLengthCheck) && !Has(m1, AadhaarLengthCheck) && !Has(m1, CardLengthCheck);
    var m2 := Add(m1, range, RangeCheck);
    assert !Has(m2, PhoneLengthCheck) && !Has(m2, AadhaarLengthCheck) && !Has(m2, CardLengthCheck);
    var m3 := Add(m2, phone, PhoneLengthCheck);
    assert !Has(m3, AadhaarLengthCheck) && !Has(m3, CardLengthCheck);
    var m4 := Add(m3, aadhaar, AadhaarLengthCheck);
    assert !Has(m4, CardLengthCheck);
    Add(m4, card, CardLengthCheck)
  }

  /** The entries are in the order `getValidationRules` adds their checks. */
  predicate InOrder(m: seq<(string, Check)>) {
    forall i, j :: 0 <= i < j < |m| ==> Position(m[i].1) < Position(m[j].1)
  }

  /** `rules.validate = { ...rules.validate, key: check }` when the check applies: the entry goes last. */
  function Add(m: seq<(string, Check)>, applies: bool, c: Check): (r: seq<(string, Check)>)
    requires InOrder(m) && forall e :: e in m ==> Position(e.1) < Position(c)
    requires forall e :: e in m ==> e == Entry(e.1)
    ensures InOrder(r) && forall e :: e in r ==> Position(e.1) <= Position(c)
    ensures forall e :: e in r ==> e == Entry(e.1)
    ensures forall d :: Has(r, d) <==> Has(m, d) || (applies && d == c)
  {
    if applies then m + [Entry(c)] else m
  }

  /**
   * The verdict the form library reports for a `validate` object: the checks run
   * in key order and the first failure's message is the one shown.
   */
  function FirstFailure(checks: seq<(string, Check)>, rp: RuleProps, value: string): (v: Verdict)
    ensures v.Pass? <==> forall i :: 0 <= i < |checks| ==> Run(checks[i].1, rp, value).Pass?
    ensures v.Fail? ==>
      exists i :: 0 <= i < |checks| && v == Run(checks[i].1, rp, value) &&
        forall j :: 0 <= j < i ==> Run(checks[j].1, rp, value).Pass?
  {
    var vs := seq(|checks|, i requires 0 <= i < |checks| => Run(checks[i].1, rp, value));
    assert forall i :: 0 <= i < |checks| ==> vs[i] == Run(checks[i].1, rp, value);
    FirstFail(vs)
  }

  /** The first failing verdict of a list, or `Pass` when none fails. */
  function FirstFail(vs: seq<Verdict>): (v: Verdict)
    ensures v.Pass? <==> forall i :: 0 <= i < |vs| ==> vs[i].Pass?
    ensures v.Fail? ==> exists i :: 0 <= i < |vs| && v == vs[i] && forall j :: 0 <= j < i ==> vs[j].Pass?
  {
    if vs == [] then Pass
    else if vs[0].Fail? then vs[0]
    else
      assert forall i :: 1 <= i < |vs| ==> vs[i] == vs[1..][i - 1];
      FirstFail(vs[1..])
  }

  /**
   * Under the Indian phone formats with a lower bound, a value below the bound
   * shows the range message, not the phone message: the range check comes first.
   */
  lemma RangeMessageBeforePhone(rp: RuleProps, value: string)
    requires rp.input.format == Some("PHONE_IN") && rp.input.maxLength == 0 && rp.min.Some?
    requires Run(RangeCheck, rp, value).Fail?
    ensures FirstFailure(BuiltInChecks(rp), rp, value) == Run(RangeCheck, rp, value)
  {
    var m := BuiltInChecks(rp);
    assert m == [("range", RangeCheck), ("phoneLength", PhoneLengthCheck)];
  }

  /** The subject of the `required` message: the label, or "This field" without one. */
  function Subject(fieldLabel: Option<string>): string {
    match fieldLabel
    case Some(l) => if l != "" then l else "This field"
    case None => "This field"
  }

  /**
   * `getValidationRules`: `required` and, when any built-in check applies,
   * `validate`; the caller's rules are spread last and win every key they name,
   * `validate` included, whose built-in checks they then drop as a whole.
   */
  function GetValidationRules(rp: RuleProps, customRules: map<string, RuleValue>): (r: map<string, RuleValue>)
    ensures r.Keys == {"required"} + (if BuiltInChecks(rp) != [] then {"validate"} else {}) + customRules.Keys
    ensures forall k :: k in customRules ==> r[k] == customRules[k]
    ensures "required" !in customRules ==>
      r["required"] == if rp.required then Message(Subject(rp.fieldLabel) + " is required") else Off
    ensures "validate" !in customRules && BuiltInChecks(rp) != [] ==>
      r["validate"] == Validators(BuiltInChecks(rp))
  {
    var required := if rp.required then Message(Subject(rp.fieldLabel) + " is required") else Off;
    var checks := BuiltInChecks(rp);
    var rules := if checks != [] then map["required" := required, "validate" := Validators(checks)]
                 else map["required" := required];
    assert rules.Keys == {"required"} + (if checks != [] then {"validate"} else {});
    rules + customRules
  }

  // ---------------------------------------------------------------------------
  // What the checks mean for the templates

  /**
   * Under the Indian phone formats, without a length limit, the phone check
   * passes exactly when the value holds as many digits as the template has
   * slots.
   */
  lemma PhoneRuleMeansFullTemplate(rp: RuleProps, value: string)
    requires rp.input.format == Some("PHONE_IN") || rp.input.format == Some("PHONE_IN_WITH_CODE")
    requires rp.input.maxLength == 0
    ensures Run(PhoneLengthCheck, rp, value).Pass? <==>
      |ExtractDigits(value)| == Slots(Pattern(rp.input).value)
  {
    var n := if rp.input.format == Some("PHONE_IN") then PHONE_IN else PHONE_IN_WITH_CODE;
    assert Key(n) == rp.input.format.value;
    assert Pattern(rp.input) == Some(Template(n));
    IndianPhoneTemplateSlots();
    CleanValueUnderTemplate(rp.input, value);
    var cleaned := CleanValue(rp.input, value);
    assert cleaned == ExtractDigits(value);
    DigitsOfDigits(cleaned);
    assert DigitCount(rp.input, value) == |ExtractDigits(value)|;
  }

  /** Under the Aadhaar format, without a length limit, the check passes exactly on a full template. */
  lemma AadhaarRuleMeansFullTemplate(rp: RuleProps, value: string)
    requires rp.input.format == Some("AADHAAR") && rp.input.maxLength == 0
    ensures Run(AadhaarLengthCheck, rp, value).Pass? <==>
      |ExtractDigits(value)| == Slots(Pattern(rp.input).value)
  {
    assert Key(AADHAAR) == "AADHAAR";
    assert Pattern(rp.input) == Some(Template(AADHAAR));
    IdentityTemplateSlots();
    CleanValueUnderTemplate(rp.input, value);
    var cleaned := CleanValue(rp.input, value);
    assert cleaned == ExtractDigits(value);
    DigitsOfDigits(cleaned);
    assert DigitCount(rp.input, value) == |ExtractDigits(value)|;
  }

  /**
   * Under the card format, without a length limit, the card check accepts up to
   * 19 digits although the template shows 16: the digits beyond the slots pass
   * the check and are not displayed.
   */
  lemma CardRuleAcceptsHiddenDigits(rp: RuleProps, value: string)
    requires rp.input.format == Some("CARD") && rp.input.maxLength == 0
    ensures Run(CardLengthCheck, rp, value).Pass? <==> 13 <= |ExtractDigits(value)| <= 19
    ensures Slots(Pattern(rp.input).value) == 16
    ensures 16 < |ExtractDigits(value)| <= 19 ==>
      Run(CardLengthCheck, rp, value).Pass? &&
      |AtSlots(FormatValue(rp.input, value), Pattern(rp.input).value)| == 16
  {
    assert Key(CARD) == "CARD";
    assert Pattern(rp.input) == Some(Template(CARD));
    CardTemplateSlots();
    CleanValueUnderTemplate(rp.input, value);
    var cleaned := CleanValue(rp.input, value);
    assert cleaned == ExtractDigits(value);
    DigitsOfDigits(cleaned);
    assert DigitCount(rp.input, value) == |ExtractDigits(value)|;
    if 16 < |cleaned| {
      CardDisplayShowsSixteen(rp.input, value);
    }
  }

  /** Under the card template, a stored value of more than 16 digits shows 16 of them. */
  lemma CardDisplayShowsSixteen(p: Props, value: string)
    requires Pattern(p) == Some(Template(CARD)) && 16 < |CleanValue(p, value)|
    ensures |AtSlots(FormatValue(p, value), Template(CARD))| == 16
  {
    var cleaned := CleanValue(p, value);
    CardTemplateSlots();
    FormatValueDisplay(p, value);
    assert AtSlots(FormatValue(p, value), Template(CARD)) == cleaned[..Min(|cleaned|, 16)];
  }

  /**
   * With a positive `maxLength` the length check can never fail: cleaning
   * already cut the value to that many digits.
   */
  lemma LengthRuleNeverFails(rp: RuleProps, value: string)
    requires rp.input.maxLength > 0
    ensures Run(LengthCheck, rp, value) == Pass
  {
  }

  /** A value the number parser cannot read passes the range check, whatever the bounds. */
  lemma RangeRulePassesUnreadable(rp: RuleProps, value: string)
    requires NumberOf(rp.input, value).None?
    ensures Run(RangeCheck, rp, value) == Pass
  {
  }

  /** A caller's `validate` replaces the whole built-in check map. */
  lemma CustomValidateReplaces(rp: RuleProps, customRules: map<string, RuleValue>)
    requires "validate" in customRules
    ensures GetValidationRules(rp, customRules)["validate"] == customRules["validate"]
  {
  }

  /** Without a template or decimals, a stored integer is checked against the bounds as that integer. */
  lemma RangeOfStoredInteger(rp: RuleProps, n: int)
    requires Pattern(rp.input).None? && !rp.input.allowDecimal && rp.input.maxLength == 0
    requires CleanValue(rp.input, IntToString(n)) == IntToString(n)
    ensures Run(RangeCheck, rp, IntToString(n)).Pass? <==>
      (rp.min.None? || n >= rp.min.value) && (rp.max.None? || n <= rp.max.value)
  {
    ParseIntRoundTrip(n);
  }
}
