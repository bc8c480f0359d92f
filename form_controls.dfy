/**
 * The two constant tables of the form controls (src/constants/form-controls.ts):
 * the registry of named format templates, where `#` marks a digit slot and every
 * other character is a literal, and the registry of telephone country codes.
 */
module FormControls {
  import opened Wrappers
  import opened JsString

  /** The keys of `FORMAT_PATTERNS`, in declaration order. */
  datatype FormatName =
    | PHONE_IN | PHONE_IN_WITH_CODE | PHONE_US | PHONE_US_WITH_CODE | PHONE_BASIC
    | AADHAAR | SSN
    | CARD | CARD_AMEX | CVV
    | PIN | OTP_4 | OTP_6 | ACCOUNT | ROUTING

  const AllFormats: seq<FormatName> := [
    PHONE_IN, PHONE_IN_WITH_CODE, PHONE_US, PHONE_US_WITH_CODE, PHONE_BASIC,
    AADHAAR, SSN, CARD, CARD_AMEX, CVV, PIN, OTP_4, OTP_6, ACCOUNT, ROUTING
  ]

  /** The property name under which a template is registered. */
  function Key(n: FormatName): string {
    match n
    case PHONE_IN => "PHONE_IN"
    case PHONE_IN_WITH_CODE => "PHONE_IN_WITH_CODE"
    case PHONE_US => "PHONE_US"
    case PHONE_US_WITH_CODE => "PHONE_US_WITH_CODE"
    case PHONE_BASIC => "PHONE_BASIC"
    case AADHAAR => "AADHAAR"
    case SSN => "SSN"
    case CARD => "CARD"
    case CARD_AMEX => "CARD_AMEX"
    case CVV => "CVV"
    case PIN => "PIN"
    case OTP_4 => "OTP_4"
    case OTP_6 => "OTP_6"
    case ACCOUNT => "ACCOUNT"
    case ROUTING => "ROUTING"
  }

  /** The template registered under a name. */
  function Template(n: FormatName): string {
    match n
    case PHONE_IN => "##### #####"
    case PHONE_IN_WITH_CODE => "+91 " + "##### #####"
    case PHONE_US => "(###) ###-####"
    case PHONE_US_WITH_CODE => "+1 (###) ###-####"
    case PHONE_BASIC => "##########"
    case AADHAAR => "#### #### ####"
    case SSN => "###-##-####"
    case CARD => "#### #### #### ####"
    case CARD_AMEX => "#### ###### #####"
    case CVV => "###"
    case PIN => "######"
    case OTP_4 => "# # # #"
    case OTP_6 => "# # # # # #"
    case ACCOUNT => "####-####-####"
    case ROUTING => "#########"
  }

  /** The number of digit slots of a template. */
  function Slots(pattern: string): nat {
    Count(pattern, '#')
  }

  /** No literal of the template is a digit. */
  predicate LiteralsDigitFree(pattern: string) {
    forall i :: 0 <= i < |pattern| && pattern[i] != '#' ==> !IsDigit(pattern[i])
  }

  function FindFormat(key: string, names: seq<FormatName>): (r: Option<FormatName>)
    ensures r.Some? ==> r.value in names && Key(r.value) == key
    ensures r.None? ==> forall n :: n in names ==> Key(n) != key
  {
    if names == [] then None
    else if Key(names[0]) == key then Some(names[0])
    else FindFormat(key, names[1..])
  }

  /** `FORMAT_PATTERNS[key]`: the template registered under `key`, if any. */
  function LookupFormat(key: string): (r: Option<string>)
    ensures r.Some? <==> exists n :: Key(n) == key
    ensures forall n :: Key(n) == key ==> r == Some(Template(n))
  {
    AllFormatsComplete();
    KeysDistinct();
    match FindFormat(key, AllFormats)
    case Some(n) => Some(Template(n))
    case None => None
  }

  lemma AllFormatsComplete()
    ensures forall n :: n in AllFormats
  {
    forall n ensures n in AllFormats {
      match n
      case PHONE_IN | PHONE_IN_WITH_CODE | PHONE_US | PHONE_US_WITH_CODE | PHONE_BASIC =>
      case AADHAAR | SSN | CARD | CARD_AMEX | CVV =>
      case PIN | OTP_4 | OTP_6 | ACCOUNT | ROUTING =>
    }
  }

  lemma KeysDistinct()
    ensures forall m, n :: Key(m) == Key(n) ==> m == n
  {
    forall m, n | Key(m) == Key(n) ensures m == n {
      assert Key(m)[|Key(m)| - 1] == Key(n)[|Key(n)| - 1];
      assert |Key(m)| == |Key(n)|;
    }
  }

  /** The slot counts of the Indian telephone templates. */
  lemma IndianPhoneTemplateSlots()
    ensures Slots(Template(PHONE_IN)) == 10 && Slots(Template(PHONE_IN_WITH_CODE)) == 10
  {
  }

  /** The slot count of the North American telephone template. */
  lemma UsPhoneTemplateSlots()
    ensures Slots(Template(PHONE_US)) == 10
  {
  }

  /** The slot count of the North American telephone template with calling code. */
  lemma UsCodePhoneTemplateSlots()
    ensures Slots(Template(PHONE_US_WITH_CODE)) == 10
  {
  }

  /** The slot count of the plain telephone template. */
  lemma BasicPhoneTemplateSlots()
    ensures Slots(Template(PHONE_BASIC)) == 10
  {
  }

  /** The slot counts of the identity-number templates. */
  lemma IdentityTemplateSlots()
    ensures Slots(Template(AADHAAR)) == 12 && Slots(Template(SSN)) == 9
  {
  }

  /** The slot counts of the payment-card templates. */
  lemma CardTemplateSlots()
    ensures Slots(Template(CARD)) == 16 && Slots(Template(CARD_AMEX)) == 15 && Slots(Template(CVV)) == 3
  {
  }

  /** The slot counts of the PIN and one-time-password templates. */
  lemma CodeTemplateSlots()
    ensures Slots(Template(PIN)) == 6 && Slots(Template(OTP_4)) == 4 && Slots(Template(OTP_6)) == 6
  {
  }

  /** The slot counts of the bank templates. */
  lemma BankTemplateSlots()
    ensures Slots(Template(ACCOUNT)) == 12 && Slots(Template(ROUTING)) == 9
  {
  }

  /** Every registered template is non-empty and ends in a digit slot. */
  lemma TemplatesEndInSlot(n: FormatName)
    ensures |Template(n)| > 0 && Template(n)[|Template(n)| - 1] == '#'
  {
  }

  /** Only the two templates with a calling-code prefix carry digit literals (`9`, `1`). */
  lemma TemplateDigitLiterals(n: FormatName)
    ensures LiteralsDigitFree(Template(n)) <==> n != PHONE_IN_WITH_CODE && n != PHONE_US_WITH_CODE
  {
    match n
    case PHONE_IN_WITH_CODE => assert Template(n)[1] == '9';
    case PHONE_US_WITH_CODE => assert Template(n)[1] == '1';
    case PHONE_IN | PHONE_US | PHONE_BASIC => PhoneLiteralsDigitFree();
    case AADHAAR | SSN | CARD | CARD_AMEX | CVV => CardLiteralsDigitFree();
    case PIN | OTP_4 | OTP_6 | ACCOUNT | ROUTING => CodeLiteralsDigitFree();
  }

  lemma PhoneLiteralsDigitFree()
    ensures LiteralsDigitFree(Template(PHONE_IN))
    ensures LiteralsDigitFree(Template(PHONE_US))
    ensures LiteralsDigitFree(Template(PHONE_BASIC))
  {
  }

  lemma CardLiteralsDigitFree()
    ensures LiteralsDigitFree(Template(AADHAAR)) && LiteralsDigitFree(Template(SSN))
    ensures LiteralsDigitFree(Template(CARD)) && LiteralsDigitFree(Template(CARD_AMEX))
    ensures LiteralsDigitFree(Template(CVV))
  {
  }

  lemma CodeLiteralsDigitFree()
    ensures LiteralsDigitFree(Template(PIN)) && LiteralsDigitFree(Template(OTP_4))
    ensures LiteralsDigitFree(Template(OTP_6)) && LiteralsDigitFree(Template(ACCOUNT))
    ensures LiteralsDigitFree(Template(ROUTING))
  {
  }

  /** The keys of `COUNTRY_CODES`. */
  datatype CountryKey = IN | US | UK | CA | AU

  datatype Country = Country(code: string, flag: string, name: string)

  /** `COUNTRY_CODES[k]`. */
  function CountryOf(k: CountryKey): Country {
    match k
    case IN => Country("+91", "\U{1F1EE}\U{1F1F3}", "India")
    case US => Country("+1", "\U{1F1FA}\U{1F1F8}", "United States")
    case UK => Country("+44", "\U{1F1EC}\U{1F1E7}", "United Kingdom")
    case CA => Country("+1", "\U{1F1E8}\U{1F1E6}", "Canada")
    case AU => Country("+61", "\U{1F1E6}\U{1F1FA}", "Australia")
  }

  /** Every calling code is `+` followed by digits; the United States and Canada share `+1`, and no other two keys share one. */
  lemma CountryCodes(k: CountryKey)
    ensures |CountryOf(k).code| >= 2 && CountryOf(k).code[0] == '+' && AllDigits(CountryOf(k).code[1..])
    ensures CountryOf(US).code == CountryOf(CA).code
    ensures forall j :: j != k && CountryOf(j).code == CountryOf(k).code ==> {j, k} == {US, CA}
  {
  }
}
