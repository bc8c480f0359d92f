/**
 * The formatting engine of the NumberInput control
 * (src/components/ui/inputs/NumberInput/NumberInput.tsx): how a format name resolves to a
 * template, how a typed value is cleaned into the stored value, how the stored
 * digits are poured into the template for display, where the caret goes after a
 * reformat, and the placeholder and progress target derived from the props.
 */
module NumberInput {
  import opened Wrappers
  import opened JsString
  import opened FormControls

  /**
   * The props the engine reads. `maxLength` 0 stands for "not given": the source
   * only tests it for truthiness, so the two behave alike.
   */
  datatype Props = Props(
    format: Option<string>,
    allowDecimal: bool,
    allowNegative: bool,
    decimalPlaces: int,
    maxLength: int)

  function Min(a: int, b: int): int { if a <= b then a else b }

  // ---------------------------------------------------------------------------
  // Resolving the template

  /**
   * The memoised `formatPattern`: nothing without a (non-empty) format, the
   * registered template for a registered name, and the format string itself
   * otherwise (a custom template).
   */
  function ResolvePattern(format: Option<string>): (r: Option<string>)
    ensures r.None? <==> format.None? || format.value == ""
    ensures r.Some? ==> r.value != ""
    ensures forall n :: format == Some(Key(n)) ==> r == Some(Template(n))
    ensures format.Some? && format.value != "" && LookupFormat(format.value).None? ==> r == format
  {
    if format.None? || format.value == "" then None
    else
      match LookupFormat(format.value)
      case Some(t) =>
        TemplatesNonEmpty();
        Some(t)
      case None => format
  }

  lemma TemplatesNonEmpty()
    ensures forall n :: Template(n) != ""
  {
    forall n ensures Template(n) != "" {
      TemplatesEndInSlot(n);
    }
  }

  function Pattern(p: Props): Option<string> {
    ResolvePattern(p.format)
  }

  // ---------------------------------------------------------------------------
  // Cleaning: the stored value

  /** `extractDigits`: every digit of the value, in order, and nothing else. */
  function ExtractDigits(value: string): (r: string)
    ensures AllDigits(r)
    ensures forall c :: IsDigit(c) ==> Count(r, c) == Count(value, c)
  {
    if value == "" then ""
    else
      CountDigitsKept(value);
      Digits(value)
  }

  /** The digits of a concatenation are those of each part, in that order. */
  lemma ExtractDigitsConcat(a: string, b: string)
    ensures ExtractDigits(a + b) == ExtractDigits(a) + ExtractDigits(b)
  {
    KeepIfConcat(a, b, IsDigit);
  }

  /** A single character is kept exactly when it is a digit. */
  lemma ExtractDigitsOne(c: char)
    ensures ExtractDigits([c]) == if IsDigit(c) then [c] else ""
  {
    KeepOne(c, IsDigit);
  }

  lemma CountDigitsKept(value: string)
    ensures forall c :: IsDigit(c) ==> Count(Digits(value), c) == Count(value, c)
  {
    forall c | IsDigit(c) ensures Count(Digits(value), c) == Count(value, c) {
      CountKeepIf(value, IsDigit, c);
    }
  }

  /**
   * The "only one decimal point" and "limit decimal places" steps. The length test
   * looks at the second `split` part taken BEFORE the surplus points were merged,
   * so a fraction that spans several points survives whole when its first segment
   * is short enough.
   */
  function LimitDecimals(s: string, decimalPlaces: int): (r: string)
    ensures Count(r, '.') <= 1
    ensures '.' in r <==> '.' in s
    ensures forall c :: c in r ==> c in s
    ensures KeepIf(r, IsNotDot) <= KeepIf(s, IsNotDot)
    ensures |Split(s, '.')| == 2 && decimalPlaces >= 0 ==>
      |Split(r, '.')| == 2 && Split(r, '.')[0] == Split(s, '.')[0]
      && Split(r, '.')[1] <= Split(s, '.')[1] && |Split(r, '.')[1]| <= decimalPlaces
    ensures |Split(s, '.')| > 2 && |Split(s, '.')[1]| <= decimalPlaces ==>
      KeepIf(r, IsNotDot) == KeepIf(s, IsNotDot)
  {
    var parts := Split(s, '.');
    SplitParts(s, '.');
    var merged := if |parts| > 2 then parts[0] + "." + Join(parts[1..], "") else s;
    if |parts| > 1 && parts[1] != "" && |parts[1]| > decimalPlaces then
      CutFraction(s, decimalPlaces);
      parts[0] + "." + Slice(parts[1], 0, decimalPlaces)
    else if |parts| > 2 then
      MergeFraction(s);
      merged
    else
      assert Count(s, '.') >= 1 ==> |Split(s, '.')| == 2;
      assert Count(s, '.') <= 1;
      merged
  }

  /** The branch that cuts the fraction to `decimalPlaces`. */
  lemma CutFraction(s: string, decimalPlaces: int)
    requires |Split(s, '.')| > 1 && |Split(s, '.')[1]| > decimalPlaces
    ensures
      var parts := Split(s, '.');
      var r := parts[0] + "." + Slice(parts[1], 0, decimalPlaces);
      && Count(r, '.') == 1 && '.' in s
      && (forall c :: c in r ==> c in s)
      && KeepIf(r, IsNotDot) <= KeepIf(s, IsNotDot)
      && Split(r, '.') == [parts[0], Slice(parts[1], 0, decimalPlaces)]
      && Slice(parts[1], 0, decimalPlaces) <= parts[1]
      && (decimalPlaces >= 0 ==> |Slice(parts[1], 0, decimalPlaces)| <= decimalPlaces)
  {
    var parts := Split(s, '.');
    SplitParts(s, '.');
    SplitJoin(s, '.');
    var cut := Slice(parts[1], 0, decimalPlaces);
    var r := parts[0] + "." + cut;
    PointedFacts(parts[0], cut);
    PointedJoin(parts);
    SlicePrefix(parts[1], decimalPlaces);
    assert KeepIf(r, IsNotDot) <= KeepIf(s, IsNotDot);
    MembersFromFiltered(r, s);
  }

  /** The branch that merges every point after the first one away. */
  lemma MergeFraction(s: string)
    requires |Split(s, '.')| > 2
    ensures
      var parts := Split(s, '.');
      var r := parts[0] + "." + Join(parts[1..], "");
      && Count(r, '.') == 1 && '.' in s
      && (forall c :: c in r ==> c in s)
      && KeepIf(r, IsNotDot) == KeepIf(s, IsNotDot)
  {
    var parts := Split(s, '.');
    SplitParts(s, '.');
    SplitJoin(s, '.');
    var rest := Join(parts[1..], "");
    DotFreeParts(parts[1..]);
    PointedFacts(parts[0], rest);
    PointedJoin(parts);
    MembersFromFiltered(parts[0] + "." + rest, s);
  }

  /** Characters survive a point removal, so a filtered prefix only holds characters of the original. */
  lemma MembersFromFiltered(r: string, s: string)
    requires KeepIf(r, IsNotDot) <= KeepIf(s, IsNotDot)
    requires '.' in r ==> '.' in s
    ensures forall c :: c in r ==> c in s
  {
    KeepIfMembers(r, IsNotDot);
    KeepIfMembers(s, IsNotDot);
    forall c | c in r ensures c in s {
      if c != '.' {
        assert c in KeepIf(r, IsNotDot);
        assert c in KeepIf(s, IsNotDot);
      }
    }
  }

  /** What removing the points from `split` parts leaves. */
  lemma DotFreeParts(parts: seq<string>)
    requires forall i :: 0 <= i < |parts| ==> '.' !in parts[i]
    ensures '.' !in Join(parts, "")
    ensures KeepIf(Join(parts, "."), IsNotDot) == Join(parts, "")
  {
    JoinWithoutDots(parts);
  }

  /** A point-free integer part, a point, and a point-free fraction. */
  lemma PointedFacts(a: string, b: string)
    requires '.' !in a && '.' !in b
    ensures Count(a + "." + b, '.') == 1
    ensures KeepIf(a + "." + b, IsNotDot) == a + b
    ensures Split(a + "." + b, '.') == [a, b]
  {
    PointedCount(a, b);
    PointedKeep(a, b);
    SplitOnePoint(a, b);
  }

  lemma PointedCount(a: string, b: string)
    requires '.' !in a && '.' !in b
    ensures Count(a + "." + b, '.') == 1
  {
    CountConcat(a + ".", b, '.');
    CountConcat(a, ".", '.');
  }

  lemma PointedKeep(a: string, b: string)
    requires '.' !in a && '.' !in b
    ensures KeepIf(a + "." + b, IsNotDot) == a + b
  {
    assert forall i :: 0 <= i < |a| ==> a[i] in a;
    assert forall i :: 0 <= i < |b| ==> b[i] in b;
    DropBetween(a, b, '.', IsNotDot);
  }

  lemma {:induction false} SplitOnePoint(a: string, b: string)
    requires '.' !in a && '.' !in b
    ensures Split(a + "." + b, '.') == [a, b]
  {
    if a == [] {
      assert a + "." + b == "." + b;
      assert ("." + b)[1..] == b;
      SplitNoPoint(b);
    } else {
      SplitOnePoint(a[1..], b);
      assert (a + "." + b)[1..] == a[1..] + "." + b;
      assert [a[0]] + a[1..] == a;
    }
  }

  lemma {:induction false} SplitNoPoint(b: string)
    requires '.' !in b
    ensures Split(b, '.') == [b]
  {
    if b != [] {
      SplitNoPoint(b[1..]);
      assert [b[0]] + b[1..] == b;
    }
  }

  /** Removing the points of a string with several parts keeps the first part in front. */
  lemma PointedJoin(parts: seq<string>)
    requires |parts| >= 2
    requires forall i :: 0 <= i < |parts| ==> '.' !in parts[i]
    ensures KeepIf(Join(parts, "."), IsNotDot) == parts[0] + parts[1] + Join(parts[2..], "")
    ensures KeepIf(Join(parts, "."), IsNotDot) == parts[0] + Join(parts[1..], "")
  {
    JoinWithoutDots(parts);
    JoinHead(parts);
  }

  lemma JoinHead(parts: seq<string>)
    requires |parts| >= 2
    ensures Join(parts, "") == parts[0] + Join(parts[1..], "")
    ensures Join(parts, "") == parts[0] + parts[1] + Join(parts[2..], "")
  {
    JoinFirst(parts);
    var tail := parts[1..];
    assert tail[0] == parts[1] && tail[1..] == parts[2..];
    if |parts| == 2 {
      assert Join(tail, "") == parts[1];
      assert parts[1] + Join(parts[2..], "") == parts[1];
    } else {
      JoinFirst(tail);
    }
  }

  /** Joining with nothing in between puts the first part in front of the rest. */
  lemma JoinFirst(parts: seq<string>)
    requires |parts| >= 2
    ensures Join(parts, "") == parts[0] + Join(parts[1..], "")
  {
    var rest := Join(parts[1..], "");
    assert parts[0] + "" + rest == parts[0] + rest;
  }

  /**
   * The "remove extra minus signs" step when negatives are allowed: a sign that is
   * not in front throws every sign away; a sign in front is kept and the others go.
   */
  function SignStep(s: string): (r: string)
    ensures Count(r, '-') <= 1 && ('-' in r ==> r[0] == '-')
    ensures '-' in r <==> |s| > 0 && s[0] == '-'
    ensures KeepIf(r, IsNotMinus) == KeepIf(s, IsNotMinus)
    ensures forall c :: c in r ==> c in s
  {
    if '-' !in s then
      assert |s| > 0 ==> s[0] in s;
      s
    else if IndexOf(s, '-') > 0 then
      assert s[0] in s[..IndexOf(s, '-')];
      MinusFreeFilter(s);
      KeepIf(s, IsNotMinus)
    else
      LeadingMinusKept(s);
      "-" + KeepIf(s[1..], IsNotMinus)
  }

  /** Removing every sign leaves a sign-free string of characters of `s`, and removing again changes nothing. */
  lemma MinusFreeFilter(s: string)
    ensures '-' !in KeepIf(s, IsNotMinus)
    ensures forall c :: c in KeepIf(s, IsNotMinus) ==> c in s
    ensures KeepIf(KeepIf(s, IsNotMinus), IsNotMinus) == KeepIf(s, IsNotMinus)
  {
    KeepIfMembers(s, IsNotMinus);
    KeepIfAll(KeepIf(s, IsNotMinus), IsNotMinus);
  }

  /** Keeping the leading sign and removing the others. */
  lemma LeadingMinusKept(s: string)
    requires |s| > 0 && s[0] == '-'
    ensures Count("-" + KeepIf(s[1..], IsNotMinus), '-') == 1
    ensures KeepIf("-" + KeepIf(s[1..], IsNotMinus), IsNotMinus) == KeepIf(s, IsNotMinus)
    ensures forall c :: c in "-" + KeepIf(s[1..], IsNotMinus) ==> c in s
  {
    var rest := KeepIf(s[1..], IsNotMinus);
    MinusFreeFilter(s[1..]);
    assert s == [s[0]] + s[1..];
    KeepIfConcat([s[0]], s[1..], IsNotMinus);
    KeepIfConcat("-", rest, IsNotMinus);
    CountConcat("-", rest, '-');
  }

  /** The cleaning of a value without a template, before the length limit. */
  function NormalizeFreeForm(p: Props, value: string): (r: string)
    ensures forall c :: c in r ==> IsNumeric(c)
    ensures p.allowDecimal ==> Count(r, '.') <= 1
    ensures !p.allowDecimal ==> '.' !in r
    ensures p.allowNegative ==> Count(r, '-') <= 1 && ('-' in r ==> r[0] == '-')
  {
    var unsigned := if !p.allowNegative && StartsWith(value, "-") then value[1..] else value;
    var kept :=
      if p.allowDecimal then LimitDecimals(KeepIf(unsigned, IsNumeric), p.decimalPlaces)
      else KeepIf(unsigned, IsDigitOrMinus);
    KeepIfMembers(unsigned, IsNumeric);
    KeepIfMembers(unsigned, IsDigitOrMinus);
    assert forall c :: c in kept ==> IsNumeric(c);
    assert !p.allowDecimal ==> '.' !in kept;
    if p.allowNegative then
      SignStepKeepsPoints(kept);
      SignStep(kept)
    else kept
  }

  /** The sign step leaves the points alone. */
  lemma SignStepKeepsPoints(s: string)
    ensures Count(SignStep(s), '.') == Count(s, '.')
  {
    CountKeepIf(SignStep(s), IsNotMinus, '.');
    CountKeepIf(s, IsNotMinus, '.');
  }

  /**
   * The length constraint: when the value holds more than `maxLength` digits, only
   * the first `maxLength` digits are kept; with `keepPoint` (decimals allowed, no
   * template, a point present) the last `decimalPlaces` of them are put back
   * behind a point. Any sign is dropped.
   */
  function LimitLength(maxLength: int, decimalPlaces: int, keepPoint: bool, c: string): (r: string)
    ensures maxLength == 0 || |Digits(c)| <= maxLength ==> r == c
    ensures maxLength != 0 && |Digits(c)| > maxLength ==>
      && Digits(r) == Slice(Digits(c), 0, maxLength)
      && (forall ch :: ch in r ==> IsDigit(ch) || ch == '.')
      && Count(r, '.') <= 1
      && ('.' in r ==> keepPoint)
  {
    if maxLength != 0 && |Digits(c)| > maxLength then
      var digits := Slice(Digits(c), 0, maxLength);
      assert AllDigits(digits);
      if keepPoint then
        RepointDigits(digits, decimalPlaces);
        Repoint(digits, decimalPlaces)
      else
        DigitsOfDigits(digits);
        digits
    else c
  }

  /** A string of digits is its own digits, and holds no point. */
  lemma DigitsOfDigits(digits: string)
    requires AllDigits(digits)
    ensures Digits(digits) == digits && Count(digits, '.') == 0
  {
    assert forall i :: 0 <= i < |digits| ==> digits[i] in digits;
    KeepIfAll(digits, IsDigit);
  }

  /** `beforeDecimal + (afterDecimal ? '.' + afterDecimal : '')` on the kept digits. */
  function Repoint(digits: string, decimalPlaces: int): string {
    var before := Slice(digits, 0, -decimalPlaces);
    var after := SliceFrom(digits, -decimalPlaces);
    before + (if after != "" then "." + after else "")
  }

  /** Putting the last `decimalPlaces` digits back behind a point keeps the digits and adds at most one point. */
  lemma RepointDigits(digits: string, decimalPlaces: int)
    requires AllDigits(digits)
    ensures
      var r := Repoint(digits, decimalPlaces);
      && Digits(r) == digits
      && (forall ch :: ch in r ==> IsDigit(ch) || ch == '.')
      && Count(r, '.') <= 1
  {
    var before := Slice(digits, 0, -decimalPlaces);
    var after := SliceFrom(digits, -decimalPlaces);
    SliceSplit(digits, -decimalPlaces);
    if after != "" {
      PointInside(before, after);
    } else {
      assert before + "" == before;
      DigitsOfDigits(before);
    }
  }

  /** A point put between two runs of digits. */
  lemma PointInside(before: string, after: string)
    requires AllDigits(before) && AllDigits(after)
    ensures var r := before + ("." + after);
      && Digits(r) == before + after
      && (forall ch :: ch in r ==> IsDigit(ch) || ch == '.')
      && Count(r, '.') <= 1
  {
    assert before + ("." + after) == before + "." + after;
    PointBetweenDigits(before, after);
  }

  /** Two strings of digits with a point between them. */
  lemma PointBetweenDigits(a: string, b: string)
    requires AllDigits(a) && AllDigits(b)
    ensures Digits(a + "." + b) == a + b
    ensures forall ch :: ch in a + "." + b ==> IsDigit(ch) || ch == '.'
    ensures Count(a + "." + b, '.') == 1
  {
    PointBetweenDigitsKept(a, b);
    PointedCount(a, b);
  }

  lemma PointBetweenDigitsKept(a: string, b: string)
    requires AllDigits(a) && AllDigits(b)
    ensures Digits(a + "." + b) == a + b
  {
    assert forall i :: 0 <= i < |a| ==> a[i] in a;
    assert forall i :: 0 <= i < |b| ==> b[i] in b;
    DropBetween(a, b, '.', IsDigit);
  }

  /**
   * `cleanValue`: the value stored in the form. Under a template it is digits only;
   * otherwise numeric characters with at most one point (none when decimals are
   * not allowed) and, when negatives are allowed, at most one sign and only in
   * front. It never holds more than `maxLength` digits.
   */
  function CleanValue(p: Props, value: string): (r: string)
    ensures forall c :: c in r ==> IsNumeric(c)
    ensures Pattern(p).Some? ==> AllDigits(r)
    ensures p.maxLength > 0 ==> |Digits(r)| <= p.maxLength
    ensures Pattern(p).Some? || !p.allowDecimal ==> '.' !in r
    ensures Count(r, '.') <= 1
    ensures p.allowNegative ==> Count(r, '-') <= 1 && ('-' in r ==> r[0] == '-')
  {
    if value == "" then ""
    else
      var pattern := Pattern(p);
      var cleaned := if pattern.Some? then ExtractDigits(value) else NormalizeFreeForm(p, value);
      var r := LimitLength(p.maxLength, p.decimalPlaces, p.allowDecimal && pattern.None? && '.' in cleaned, cleaned);
      assert pattern.Some? ==> '.' !in cleaned && '-' !in cleaned;
      r
  }

  /**
   * Under a template the stored value is the digits of the input, cut to
   * `maxLength` when that is given and exceeded.
   */
  lemma CleanValueUnderTemplate(p: Props, value: string)
    requires Pattern(p).Some?
    ensures CleanValue(p, value) <= ExtractDigits(value)
    ensures p.maxLength == 0 || |ExtractDigits(value)| <= p.maxLength ==>
      CleanValue(p, value) == ExtractDigits(value)
    ensures p.maxLength > 0 ==> |CleanValue(p, value)| == Min(|ExtractDigits(value)|, p.maxLength)
  {
    if value != "" {
      var c := ExtractDigits(value);
      LimitDigitsOnly(p.maxLength, p.decimalPlaces, c);
      SlicePrefix(c, p.maxLength);
    }
  }

  /** On a string of digits, the length limit without a point is a plain cut. */
  lemma LimitDigitsOnly(maxLength: int, decimalPlaces: int, c: string)
    requires AllDigits(c)
    ensures LimitLength(maxLength, decimalPlaces, false, c) ==
      if maxLength != 0 && |c| > maxLength then Slice(c, 0, maxLength) else c
  {
    assert forall i :: 0 <= i < |c| ==> c[i] in c;
    KeepIfAll(c, IsDigit);
  }

  /**
   * The length limit on a value with one point does not keep the point where it
   * stood: the first `maxLength` digits are kept and the point is put before the
   * last `decimalPlaces` of them, or before all of them when `decimalPlaces` is 0
   * (`slice(0, -0)` is empty and `slice(-0)` the whole string).
   */
  lemma LimitLengthMovesPoint(maxLength: int, decimalPlaces: int, a: string, f: string)
    requires AllDigits(a) && AllDigits(f)
    requires 0 < maxLength < |a| + |f| && decimalPlaces >= 0
    ensures var kept := (a + f)[..maxLength];
      var k := if decimalPlaces == 0 then maxLength else Min(decimalPlaces, maxLength);
      LimitLength(maxLength, decimalPlaces, true, a + "." + f) == kept[..maxLength - k] + "." + kept[maxLength - k..]
  {
    PointBetweenDigits(a, f);
    var kept := (a + f)[..maxLength];
    assert Slice(a + f, 0, maxLength) == kept;
    assert LimitLength(maxLength, decimalPlaces, true, a + "." + f) == Repoint(kept, decimalPlaces);
    RepointAt(kept, decimalPlaces);
  }

  /** Where `Repoint` puts the point in a non-empty run of digits. */
  lemma RepointAt(kept: string, decimalPlaces: int)
    requires |kept| > 0 && decimalPlaces >= 0
    ensures var m := |kept|;
      var k := if decimalPlaces == 0 then m else Min(decimalPlaces, m);
      Repoint(kept, decimalPlaces) == kept[..m - k] + "." + kept[m - k..]
  {
    var m := |kept|;
    var k := if decimalPlaces == 0 then m else Min(decimalPlaces, m);
    assert ClampIndex(-decimalPlaces, m) == m - k;
    assert Slice(kept, 0, -decimalPlaces) == kept[..m - k];
    assert SliceFrom(kept, -decimalPlaces) == kept[m - k..];
  }

  /**
   * Under the length limit a value whose fraction fits `decimalPlaces` keeps its
   * first `maxLength` digits, with the point moved to the place
   * `LimitLengthMovesPoint` gives (so `"123.4"` held to three digits with two
   * places is stored as `"1.23"`).
   */
  lemma CleanValueMovesPoint(p: Props, a: string, f: string)
    requires Pattern(p).None? && p.allowDecimal
    requires AllDigits(a) && AllDigits(f) && |f| <= p.decimalPlaces
    requires 0 < p.maxLength < |a| + |f|
    ensures var m := p.maxLength;
      var kept := (a + f)[..m];
      var k := if p.decimalPlaces == 0 then m else Min(p.decimalPlaces, m);
      CleanValue(p, a + "." + f) == kept[..m - k] + "." + kept[m - k..]
  {
    var v := a + "." + f;
    assert v[|a|] == '.';
    assert forall i :: 0 <= i < |v| ==> v[i] in v;
    PointBetweenDigits(a, f);
    FreeFormOfNumeric(p, v);
    SplitOnePoint(a, f);
    assert CleanValue(p, v) == LimitLength(p.maxLength, p.decimalPlaces, true, v);
    LimitLengthMovesPoint(p.maxLength, p.decimalPlaces, a, f);
  }

  /**
   * With no decimal places, a value ending in a point and held to fewer digits
   * than it has is stored with the point in front of its digits (`"123."` held to
   * two digits is `".12"`).
   */
  lemma LengthLimitLeadingPoint(p: Props, a: string)
    requires Pattern(p).None? && p.allowDecimal && p.decimalPlaces == 0
    requires AllDigits(a) && 0 < p.maxLength < |a|
    ensures CleanValue(p, a + ".") == "." + a[..p.maxLength]
  {
    assert AllDigits([]);
    assert a + "." + [] == a + ".";
    assert a + [] == a;
    CleanValueMovesPoint(p, a, []);
  }

  /**
   * Without negatives allowed, only a sign in the very first position is removed:
   * every later sign stays in an integer value.
   */
  lemma OnlyLeadingSignRemoved(p: Props, value: string)
    requires Pattern(p).None? && !p.allowNegative && !p.allowDecimal && p.maxLength == 0
    ensures Count(CleanValue(p, value), '-') ==
      Count(value, '-') - (if StartsWith(value, "-") then 1 else 0)
  {
    if value != "" {
      var unsigned := if StartsWith(value, "-") then value[1..] else value;
      assert value == [value[0]] + value[1..];
      CountConcat([value[0]], value[1..], '-');
      CountKeepIf(unsigned, IsDigitOrMinus, '-');
    }
  }

  /** Splitting at a point behind a point-free prefix. */
  lemma {:induction false} SplitAfterPoint(a: string, rest: string)
    requires '.' !in a
    ensures Split(a + "." + rest, '.') == [a] + Split(rest, '.')
  {
    if a == [] {
      assert a + "." + rest == "." + rest;
      assert ("." + rest)[1..] == rest;
    } else {
      SplitAfterPoint(a[1..], rest);
      assert (a + "." + rest)[1..] == a[1..] + "." + rest;
      assert [a[0]] + a[1..] == a;
    }
  }

  /** A sign-free numeric value reaches the length limit as the decimal step leaves it. */
  lemma FreeFormOfNumeric(p: Props, v: string)
    requires p.allowDecimal
    requires forall i :: 0 <= i < |v| ==> IsNumeric(v[i])
    requires '-' !in v
    ensures NormalizeFreeForm(p, v) == LimitDecimals(v, p.decimalPlaces)
  {
    if v != [] {
      assert v[0] in v;
    }
    KeepIfAll(v, IsNumeric);
  }

  /**
   * The stale decimal-place check: after `a.b.c` is merged into `a.bc`, the limit
   * is tested against `b` alone, so a fraction longer than `decimalPlaces` gets
   * through.
   */
  lemma MergedFractionSkipsLimit(p: Props, a: string, b: string, c: string)
    requires Pattern(p).None? && p.allowDecimal && p.maxLength == 0
    requires AllDigits(a) && AllDigits(b) && AllDigits(c) && |b| <= p.decimalPlaces
    ensures CleanValue(p, a + "." + b + "." + c) == a + "." + (b + c)
  {
    var v := a + "." + b + "." + c;
    assert forall i :: 0 <= i < |v| ==> v[i] in v;
    FreeFormOfNumeric(p, v);
    MergedDecimals(a, b, c, p.decimalPlaces);
  }

  /** The decimal step on `a.b.c` with a short `b`: the later points are merged away and nothing is cut. */
  lemma MergedDecimals(a: string, b: string, c: string, decimalPlaces: int)
    requires '.' !in a && '.' !in b && '.' !in c && |b| <= decimalPlaces
    ensures LimitDecimals(a + "." + b + "." + c, decimalPlaces) == a + "." + (b + c)
  {
    var v := a + "." + b + "." + c;
    SplitTwoPoints(a, b, c);
    var parts := Split(v, '.');
    assert parts[1..] == [b, c];
    assert Join([b, c], "") == b + "" + c;
    assert b + "" + c == b + c;
    assert !(|parts| > 1 && parts[1] != "" && |parts[1]| > decimalPlaces);
    assert LimitDecimals(v, decimalPlaces) == parts[0] + "." + Join(parts[1..], "");
  }

  lemma SplitTwoPoints(a: string, b: string, c: string)
    requires '.' !in a && '.' !in b && '.' !in c
    ensures Split(a + "." + b + "." + c, '.') == [a, b, c]
  {
    assert a + "." + b + "." + c == a + "." + (b + "." + c);
    SplitAfterPoint(a, b + "." + c);
    SplitOnePoint(b, c);
  }

  /** A value with one point keeps `decimalPlaces` digits of its fraction. */
  lemma FractionCut(p: Props, a: string, f: string)
    requires Pattern(p).None? && p.allowDecimal && p.maxLength == 0
    requires AllDigits(a) && AllDigits(f) && 0 <= p.decimalPlaces < |f|
    ensures CleanValue(p, a + "." + f) == a + "." + f[..p.decimalPlaces]
  {
    var v := a + "." + f;
    assert forall i :: 0 <= i < |v| ==> v[i] in v;
    FreeFormOfNumeric(p, v);
    SplitOnePoint(a, f);
  }

  /**
   * Cleaning is not idempotent: when the first fraction segment fits
   * `decimalPlaces` but the merged fraction does not, a second cleaning cuts what
   * the first let through (`"12.3.45"` gives `"12.345"`, then `"12.34"`).
   */
  lemma CleanValueNotIdempotent(p: Props, a: string, b: string, c: string)
    requires Pattern(p).None? && p.allowDecimal && p.maxLength == 0
    requires AllDigits(a) && AllDigits(b) && AllDigits(c)
    requires |b| <= p.decimalPlaces < |b| + |c|
    ensures CleanValue(p, CleanValue(p, a + "." + b + "." + c)) != CleanValue(p, a + "." + b + "." + c)
  {
    MergedFractionSkipsLimit(p, a, b, c);
    FractionCut(p, a, b + c);
  }

  // ---------------------------------------------------------------------------
  // Pouring digits into a template

  /** The number of slots among the first `k` template characters. */
  function SlotsBelow(t: string, k: nat): nat {
    if k <= |t| then Count(t[..k], '#') else Slots(t)
  }

  predicate IsSlot(t: string, i: int) {
    0 <= i < |t| && t[i] == '#'
  }

  predicate EndsInSlot(t: string) {
    |t| > 0 && t[|t| - 1] == '#'
  }

  lemma SlotsBelowNext(t: string, k: nat)
    ensures SlotsBelow(t, k + 1) == SlotsBelow(t, k) + (if IsSlot(t, k) then 1 else 0)
  {
    if k < |t| {
      assert t[..k + 1] == t[..k] + [t[k]];
      CountConcat(t[..k], [t[k]], '#');
    } else if k == |t| {
      assert t[..k] == t;
    }
  }

  lemma SlotsBelowTail(t: string, k: nat)
    requires t != []
    ensures SlotsBelow(t, k + 1) == (if t[0] == '#' then 1 else 0) + SlotsBelow(t[1..], k)
  {
    var m := if k + 1 <= |t| then k + 1 else |t|;
    assert t[..m] == [t[0]] + t[1..][..m - 1];
    CountConcat([t[0]], t[1..][..m - 1], '#');
    assert t == t[..|t|];
    assert t[1..] == t[1..][..|t| - 1];
  }

  lemma SlotsBelowBound(t: string, k: nat)
    ensures SlotsBelow(t, k) <= Slots(t)
  {
    if k <= |t| {
      assert t == t[..k] + t[k..];
      CountConcat(t[..k], t[k..], '#');
    }
  }

  lemma SlotsBelowMono(t: string, j: nat, k: nat)
    requires j <= k
    ensures SlotsBelow(t, j) <= SlotsBelow(t, k)
  {
    if k <= |t| {
      assert t[..k] == t[..j] + t[j..k];
      CountConcat(t[..j], t[j..k], '#');
    } else {
      SlotsBelowBound(t, j);
    }
  }

  lemma SlotsTail(t: string)
    requires t != []
    ensures Slots(t) == (if t[0] == '#' then 1 else 0) + Slots(t[1..])
  {
    assert t == [t[0]] + t[1..];
    CountConcat([t[0]], t[1..], '#');
  }

  /**
   * The template walk of `applyPattern`: a slot takes the next digit, a literal is
   * copied, and the walk stops as soon as the digits or the template run out.
   */
  function Fill(digits: string, t: string): (r: string)
    ensures |r| <= |t|
    ensures r == [] <==> digits == [] || t == []
  {
    if digits == [] || t == [] then []
    else if t[0] == '#' then [digits[0]] + Fill(digits[1..], t[1..])
    else [t[0]] + Fill(digits, t[1..])
  }

  /** `applyPattern(digits, pattern)`: no digits or no template leaves the digits as they are. */
  function PatternApplied(digits: string, t: string): string {
    if digits == "" || t == "" then digits else Fill(digits, t)
  }

  /** `applyPattern`, as the loop the source runs. */
  method ApplyPattern(digits: string, t: string) returns (formatted: string)
    ensures formatted == PatternApplied(digits, t)
  {
    if digits == "" || t == "" {
      return digits;
    }
    formatted := "";
    var digitIndex := 0;
    var i := 0;
    while i < |t| && digitIndex < |digits|
      invariant 0 <= i <= |t| && 0 <= digitIndex <= |digits|
      invariant formatted + Fill(digits[digitIndex..], t[i..]) == Fill(digits, t)
    {
      FillAdvance(digits, t, formatted, digitIndex, i);
      if t[i] == '#' {
        formatted := formatted + [digits[digitIndex]];
        digitIndex := digitIndex + 1;
      } else {
        formatted := formatted + [t[i]];
      }
      i := i + 1;
    }
  }

  /** The loop step of `applyPattern` keeps the output plus the rest of the walk equal to the whole walk. */
  lemma FillAdvance(digits: string, t: string, formatted: string, di: nat, i: nat)
    requires di < |digits| && i < |t|
    requires formatted + Fill(digits[di..], t[i..]) == Fill(digits, t)
    ensures t[i] == '#' ==> formatted + [digits[di]] + Fill(digits[di + 1..], t[i + 1..]) == Fill(digits, t)
    ensures t[i] != '#' ==> formatted + [t[i]] + Fill(digits[di..], t[i + 1..]) == Fill(digits, t)
  {
    FillStep(digits, t, di, i);
    var c := if t[i] == '#' then digits[di] else t[i];
    var rest := if t[i] == '#' then Fill(digits[di + 1..], t[i + 1..]) else Fill(digits[di..], t[i + 1..]);
    assert formatted + [c] + rest == formatted + ([c] + rest);
  }

  /** One step of the walk, from any position. */
  lemma FillStep(digits: string, t: string, di: nat, i: nat)
    requires di < |digits| && i < |t|
    ensures Fill(digits[di..], t[i..]) ==
      if t[i] == '#' then [digits[di]] + Fill(digits[di + 1..], t[i + 1..])
      else [t[i]] + Fill(digits[di..], t[i + 1..])
  {
    assert t[i..][1..] == t[i + 1..];
    assert digits[di..][1..] == digits[di + 1..];
  }

  /** Each character of the display is the template's literal or, at a slot, the digit whose turn it is. */
  lemma {:induction false} FillAt(digits: string, t: string, i: nat)
    requires i < |Fill(digits, t)|
    ensures t[i] == '#' ==> SlotsBelow(t, i) < |digits| && Fill(digits, t)[i] == digits[SlotsBelow(t, i)]
    ensures t[i] != '#' ==> Fill(digits, t)[i] == t[i]
  {
    if i > 0 {
      SlotsBelowTail(t, i - 1);
      if t[0] == '#' {
        FillAt(digits[1..], t[1..], i - 1);
      } else {
        FillAt(digits, t[1..], i - 1);
      }
    }
  }

  /** The walk uses up `min(|digits|, slots)` digits. */
  lemma {:induction false} FillConsumed(digits: string, t: string)
    ensures SlotsBelow(t, |Fill(digits, t)|) == Min(|digits|, Slots(t))
  {
    if digits != [] && t != [] {
      SlotsTail(t);
      if t[0] == '#' {
        FillConsumed(digits[1..], t[1..]);
        SlotsBelowTail(t, |Fill(digits[1..], t[1..])|);
      } else {
        FillConsumed(digits, t[1..]);
        SlotsBelowTail(t, |Fill(digits, t[1..])|);
      }
    }
  }

  /** With digits to spare the walk covers the whole template. */
  lemma {:induction false} FillCoversTemplate(digits: string, t: string)
    requires |digits| > Slots(t)
    ensures |Fill(digits, t)| == |t|
  {
    if t != [] {
      SlotsTail(t);
      if t[0] == '#' {
        FillCoversTemplate(digits[1..], t[1..]);
      } else {
        FillCoversTemplate(digits, t[1..]);
      }
    }
  }

  /** Without digits to spare the walk ends on the slot of the last digit. */
  lemma {:induction false} FillEndsOnSlot(digits: string, t: string)
    requires 0 < |digits| <= Slots(t)
    ensures 0 < |Fill(digits, t)| && IsSlot(t, |Fill(digits, t)| - 1)
  {
    SlotsTail(t);
    if t[0] == '#' {
      if |digits| > 1 {
        FillEndsOnSlot(digits[1..], t[1..]);
      }
    } else {
      FillEndsOnSlot(digits, t[1..]);
    }
  }

  /** The characters of `display` that sit at the template's slots, in order. */
  function AtSlots(display: string, t: string): (r: string)
    ensures |r| <= |display|
  {
    if display == [] || t == [] then []
    else (if t[0] == '#' then [display[0]] else []) + AtSlots(display[1..], t[1..])
  }

  /** Reading the slots of the display gives back the digits that fit, in order. */
  lemma {:induction false} FillSlotsRoundTrip(digits: string, t: string)
    ensures AtSlots(Fill(digits, t), t) == digits[..Min(|digits|, Slots(t))]
    decreases |t|, 1
  {
    if digits == [] || t == [] {
    } else if t[0] == '#' {
      SlotRoundTrip(digits, t);
    } else {
      LiteralRoundTrip(digits, t);
    }
  }

  /** The round trip when the template starts with a slot. */
  lemma {:induction false} SlotRoundTrip(digits: string, t: string)
    requires digits != [] && t != [] && t[0] == '#'
    ensures AtSlots(Fill(digits, t), t) == digits[..Min(|digits|, Slots(t))]
    decreases |t|, 0
  {
    SlotsTail(t);
    var rest := Fill(digits[1..], t[1..]);
    FillSlotsRoundTrip(digits[1..], t[1..]);
    assert ([digits[0]] + rest)[1..] == rest;
    var k := Min(|digits|, Slots(t));
    assert Min(|digits[1..]|, Slots(t[1..])) == k - 1;
    assert digits[..k] == [digits[0]] + digits[1..][..k - 1];
  }

  /** The round trip when the template starts with a literal. */
  lemma {:induction false} LiteralRoundTrip(digits: string, t: string)
    requires digits != [] && t != [] && t[0] != '#'
    ensures AtSlots(Fill(digits, t), t) == digits[..Min(|digits|, Slots(t))]
    decreases |t|, 0
  {
    SlotsTail(t);
    var rest := Fill(digits, t[1..]);
    FillSlotsRoundTrip(digits, t[1..]);
    assert ([t[0]] + rest)[1..] == rest;
  }

  lemma LiteralsDigitFreeTail(t: string)
    requires t != [] && LiteralsDigitFree(t)
    ensures LiteralsDigitFree(t[1..])
  {
    forall i | 0 <= i < |t[1..]| && t[1..][i] != '#' ensures !IsDigit(t[1..][i]) {
      assert t[1..][i] == t[i + 1];
    }
  }

  /** With digit-free literals, the digits of the display are exactly the digits that fit. */
  lemma {:induction false} FillDigits(digits: string, t: string)
    requires AllDigits(digits) && LiteralsDigitFree(t)
    ensures Digits(Fill(digits, t)) == digits[..Min(|digits|, Slots(t))]
    decreases |t|, 1
  {
    if digits == [] || t == [] {
    } else if t[0] == '#' {
      SlotDigits(digits, t);
    } else {
      LiteralDigits(digits, t);
    }
  }

  /** The digits of the display when the template starts with a slot. */
  lemma {:induction false} SlotDigits(digits: string, t: string)
    requires AllDigits(digits) && LiteralsDigitFree(t)
    requires digits != [] && t != [] && t[0] == '#'
    ensures Digits(Fill(digits, t)) == digits[..Min(|digits|, Slots(t))]
    decreases |t|, 0
  {
    SlotsTail(t);
    LiteralsDigitFreeTail(t);
    var rest := Fill(digits[1..], t[1..]);
    assert AllDigits(digits[1..]) && digits[0] in digits;
    FillDigits(digits[1..], t[1..]);
    KeepCons(digits[0], rest, IsDigit);
    var k := Min(|digits|, Slots(t));
    assert Min(|digits[1..]|, Slots(t[1..])) == k - 1;
    assert digits[..k] == [digits[0]] + digits[1..][..k - 1];
  }

  /** The digits of the display when the template starts with a literal. */
  lemma {:induction false} LiteralDigits(digits: string, t: string)
    requires AllDigits(digits) && LiteralsDigitFree(t)
    requires digits != [] && t != [] && t[0] != '#'
    ensures Digits(Fill(digits, t)) == digits[..Min(|digits|, Slots(t))]
    decreases |t|, 0
  {
    SlotsTail(t);
    LiteralsDigitFreeTail(t);
    assert !IsDigit(t[0]);
    FillDigits(digits, t[1..]);
    KeepCons(t[0], Fill(digits, t[1..]), IsDigit);
  }

  /**
   * Digits beyond the template's slots change nothing when the template ends in a
   * slot.
   */
  lemma {:induction false} FillIgnoresSurplus(digits: string, t: string)
    requires t == [] || EndsInSlot(t)
    ensures Fill(digits, t) == Fill(digits[..Min(|digits|, Slots(t))], t)
    decreases |t|, 1
  {
    if digits == [] || t == [] {
    } else if t[0] == '#' {
      SlotIgnoresSurplus(digits, t);
    } else {
      LiteralIgnoresSurplus(digits, t);
    }
  }

  /** A template that ends in a slot still does so after its first character, unless that was the slot. */
  lemma EndsInSlotTail(t: string)
    requires EndsInSlot(t) && |t| > 1
    ensures EndsInSlot(t[1..])
  {
    assert t[1..][|t[1..]| - 1] == t[|t| - 1];
  }

  lemma {:induction false} SlotIgnoresSurplus(digits: string, t: string)
    requires EndsInSlot(t) && digits != [] && t[0] == '#'
    ensures Fill(digits, t) == Fill(digits[..Min(|digits|, Slots(t))], t)
    decreases |t|, 0
  {
    SlotsTail(t);
    var k := Min(|digits|, Slots(t));
    if |t| > 1 {
      EndsInSlotTail(t);
    }
    FillIgnoresSurplus(digits[1..], t[1..]);
    assert Min(|digits[1..]|, Slots(t[1..])) == k - 1;
    var cut := digits[..k];
    assert cut != [] && cut[0] == digits[0];
    assert cut[1..] == digits[1..][..k - 1];
    assert Fill(cut, t) == [digits[0]] + Fill(cut[1..], t[1..]);
    assert Fill(digits, t) == [digits[0]] + Fill(digits[1..], t[1..]);
  }

  lemma {:induction false} LiteralIgnoresSurplus(digits: string, t: string)
    requires EndsInSlot(t) && digits != [] && t[0] != '#'
    ensures Fill(digits, t) == Fill(digits[..Min(|digits|, Slots(t))], t)
    decreases |t|, 0
  {
    SlotsTail(t);
    EndsInSlotTail(t);
    FillIgnoresSurplus(digits, t[1..]);
  }

  // ---------------------------------------------------------------------------
  // The display value

  /** `formatValue`: the text shown in the field for a value. */
  function FormatValue(p: Props, value: string): (r: string)
    ensures Pattern(p).None? ==> r == CleanValue(p, value)
    ensures Pattern(p).Some? ==> |r| <= |Pattern(p).value| && (r == "" <==> CleanValue(p, value) == "")
  {
    if value == "" then ""
    else
      var cleaned := CleanValue(p, value);
      match Pattern(p)
      case None => cleaned
      case Some(t) =>
        var digits := ExtractDigits(cleaned);
        DigitsOfDigits(cleaned);
        if digits == "" then "" else PatternApplied(digits, t)
  }

  /**
   * Without a template the display is the stored value; under one it is no longer
   * than the template, carries the template's literals, and its slots hold the
   * stored digits that fit, in order.
   */
  lemma FormatValueDisplay(p: Props, value: string)
    ensures Pattern(p).None? ==> FormatValue(p, value) == CleanValue(p, value)
    ensures Pattern(p).Some? ==>
      var t := Pattern(p).value;
      var r := FormatValue(p, value);
      var c := CleanValue(p, value);
      && |r| <= |t|
      && (forall i :: 0 <= i < |r| && t[i] != '#' ==> r[i] == t[i])
      && AtSlots(r, t) == c[..Min(|c|, Slots(t))]
  {
    if value != "" && Pattern(p).Some? {
      var t := Pattern(p).value;
      var c := CleanValue(p, value);
      KeepIfAll(c, IsDigit);
      if c != "" {
        FillSlotsRoundTrip(c, t);
        forall i | 0 <= i < |Fill(c, t)| && t[i] != '#' ensures Fill(c, t)[i] == t[i] {
          FillAt(c, t, i);
        }
      }
    }
  }

  /**
   * Reformatting the display is harmless when the template's literals hold no
   * digit and it ends in a slot: the display of a display is the display.
   */
  lemma FormatValueIdempotent(p: Props, value: string)
    requires Pattern(p).Some? && LiteralsDigitFree(Pattern(p).value) && EndsInSlot(Pattern(p).value)
    requires p.maxLength >= 0
    ensures FormatValue(p, FormatValue(p, value)) == FormatValue(p, value)
  {
    var t := Pattern(p).value;
    var r := FormatValue(p, value);
    if r != "" {
      var c := CleanValue(p, value);
      FormatValueFills(p, value);
      var k := Min(|c|, Slots(t));
      RedisplayedDigits(p, value);
      assert t[|t| - 1] in t;
      FormatValueFills(p, r);
      DigitsOfDigits(c[..k]);
      FillIgnoresSurplus(c, t);
    }
  }

  /** Under a template, a non-empty stored value is displayed by filling the template with it. */
  lemma FormatValueFills(p: Props, value: string)
    requires Pattern(p).Some?
    ensures var c := CleanValue(p, value);
      FormatValue(p, value) == if c == "" then "" else Fill(ExtractDigits(c), Pattern(p).value)
    ensures ExtractDigits(CleanValue(p, value)) == CleanValue(p, value)
  {
    DigitsOfDigits(CleanValue(p, value));
  }

  /** Cleaning the display gives back the stored digits that fit the template. */
  lemma RedisplayedDigits(p: Props, value: string)
    requires Pattern(p).Some? && LiteralsDigitFree(Pattern(p).value)
    requires p.maxLength >= 0
    requires FormatValue(p, value) != ""
    ensures var c := CleanValue(p, value);
      CleanValue(p, FormatValue(p, value)) == c[..Min(|c|, Slots(Pattern(p).value))]
  {
    var t := Pattern(p).value;
    var c := CleanValue(p, value);
    var r := FormatValue(p, value);
    FormatValueFills(p, value);
    FillDigits(c, t);
    var k := Min(|c|, Slots(t));
    assert ExtractDigits(r) == c[..k];
    CleanValueUnderTemplate(p, value);
    CleanValueUnderTemplate(p, r);
  }

  /** A literal in front of the template is copied in front of the display. */
  lemma FillLiteralFirst(digits: string, c: char, t: string)
    requires digits != [] && c != '#'
    ensures Fill(digits, [c] + t) == [c] + Fill(digits, t)
  {
    assert ([c] + t)[1..] == t;
  }

  /** A slot in front of the template takes the first digit. */
  lemma FillSlotFirst(d: char, digits: string, t: string)
    requires t != [] && t[0] == '#'
    ensures Fill([d] + digits, t) == [d] + Fill(digits, t[1..])
  {
    assert ([d] + digits)[1..] == digits;
  }

  /** The digits of the calling-code prefix of India. */
  lemma CodePrefixDigits()
    ensures Digits("+91 ") == "91"
  {
    assert "+91 " == ['+'] + "91 ";
    assert "91 " == ['9'] + "1 ";
    assert "1 " == ['1'] + " ";
    KeepOne('+', IsDigit);
    KeepOne('9', IsDigit);
    KeepOne('1', IsDigit);
    KeepOne(' ', IsDigit);
    KeepIfConcat(['+'], "91 ", IsDigit);
    KeepIfConcat(['9'], "1 ", IsDigit);
    KeepIfConcat(['1'], " ", IsDigit);
  }

  /** The template of India with calling code is the plain one behind `+91 `. */
  lemma CodeTemplateShape(digits: string)
    requires digits != []
    ensures Template(PHONE_IN_WITH_CODE) == "+91 " + Template(PHONE_IN)
    ensures Fill(digits, Template(PHONE_IN_WITH_CODE)) == "+91 " + Fill(digits, Template(PHONE_IN))
  {
    var rest := Template(PHONE_IN);
    assert "+91 " == ['+'] + "91 ";
    assert "91 " == ['9'] + "1 ";
    assert "1 " == ['1'] + " ";
    assert "+91 " + rest == ['+'] + (['9'] + (['1'] + ([' '] + rest)));
    FillLiteralFirst(digits, ' ', rest);
    FillLiteralFirst(digits, '1', [' '] + rest);
    FillLiteralFirst(digits, '9', ['1'] + ([' '] + rest));
    FillLiteralFirst(digits, '+', ['9'] + (['1'] + ([' '] + rest)));
  }

  /**
   * The calling-code template of India puts the digits `9` and `1` in front of the
   * display, so reading a display back as input gains those two digits.
   */
  lemma CodePrefixLeaksIntoDigits(digits: string)
    requires digits != [] && AllDigits(digits)
    ensures Digits(Fill(digits, Template(PHONE_IN_WITH_CODE))) ==
      "91" + digits[..Min(|digits|, Slots(Template(PHONE_IN)))]
  {
    var rest := Template(PHONE_IN);
    CodeTemplateShape(digits);
    KeepIfConcat("+91 ", Fill(digits, rest), IsDigit);
    CodePrefixDigits();
    TemplateDigitLiterals(PHONE_IN);
    FillDigits(digits, rest);
  }

  /** The registered name resolves to the calling-code template. */
  lemma CodeFormatResolves(p: Props)
    requires p.format == Some("PHONE_IN_WITH_CODE")
    ensures Pattern(p) == Some(Template(PHONE_IN_WITH_CODE))
  {
    assert Key(PHONE_IN_WITH_CODE) == "PHONE_IN_WITH_CODE";
  }

  /** Hence with that format the display is not a fixed point: "1" shows as "+91 1" ... */
  lemma CodePrefixShowsDigit(p: Props)
    requires p.format == Some("PHONE_IN_WITH_CODE") && p.maxLength == 0
    ensures FormatValue(p, "1") == "+91 " + "1"
  {
    var t := Template(PHONE_IN_WITH_CODE);
    var rest := Template(PHONE_IN);
    CodeFormatResolves(p);
    KeepOne('1', IsDigit);
    assert ExtractDigits("1") == "1";
    assert CleanValue(p, "1") == "1";
    CodeTemplateShape("1");
    FillSlotFirst('1', "", rest);
    assert Fill("1", rest) == "1";
  }

  /** The digits read back from "+91 1". */
  lemma CodeDisplayDigits()
    ensures ExtractDigits("+91 " + "1") == "911"
  {
    CodePrefixDigits();
    KeepOne('1', IsDigit);
    KeepIfConcat("+91 ", "1", IsDigit);
  }

  /** Three digits in the plain template of India. */
  lemma ThreeDigitsShown()
    ensures Fill("911", Template(PHONE_IN)) == "911"
  {
    var rest := Template(PHONE_IN);
    assert rest[1..][0] == '#' && rest[1..][1..] == rest[2..];
    assert rest[2..][0] == '#' && rest[2..][1..] == rest[3..];
    FillSlotFirst('9', "11", rest);
    FillSlotFirst('1', "1", rest[1..]);
    FillSlotFirst('1', "", rest[2..]);
  }

  /** ... which shows as "+91 911". */
  lemma CodePrefixRereadsCode(p: Props)
    requires p.format == Some("PHONE_IN_WITH_CODE") && p.maxLength == 0
    ensures FormatValue(p, "+91 " + "1") == "+91 " + "911"
  {
    CodeFormatResolves(p);
    CodeDisplayDigits();
    assert CleanValue(p, "+91 " + "1") == "911";
    DigitsOfDigits("911");
    CodeTemplateShape("911");
    ThreeDigitsShown();
  }

  // ---------------------------------------------------------------------------
  // Caret placement after a reformat

  /** The number of digits left of the caret in a value. */
  function DigitsBefore(value: string, caret: nat): nat {
    |ExtractDigits(Substring(value, 0, caret))|
  }

  /**
   * `calculateCursorPosition`. Without a template the caret stays. After a
   * deletion it moves to the last slot before the old caret (or to 0). After an
   * insertion it lands just after the slot of digit number `n + 1` of the new
   * display, `n` being the number of digits left of the old caret, or at the end
   * when the display has no such digit.
   */
  method CalculateCursorPosition(pattern: Option<string>, oldValue: string, newFormatted: string,
                                 oldCaret: nat, isBackspace: bool)
    returns (caret: int)
    ensures CaretPlaced(pattern, oldValue, newFormatted, oldCaret, isBackspace, caret)
  {
    if pattern.None? {
      return oldCaret;
    }
    if isBackspace {
      caret := SlotBeforeCaret(pattern.value, oldCaret);
    } else {
      caret := CaretAfterDigit(pattern.value, |newFormatted|, DigitsBefore(oldValue, oldCaret));
    }
  }

  /** Where `calculateCursorPosition` may put the caret, as described above. */
  predicate CaretPlaced(pattern: Option<string>, oldValue: string, newFormatted: string,
                        oldCaret: nat, isBackspace: bool, caret: int)
  {
    && (pattern.None? ==> caret == oldCaret)
    && (pattern.Some? && isBackspace ==>
      && 0 <= caret
      && (caret < oldCaret || caret == 0)
      && (IsSlot(pattern.value, caret) || caret == 0)
      && (forall j :: caret < j < oldCaret ==> !IsSlot(pattern.value, j)))
    && (pattern.Some? && !isBackspace ==>
      var t := pattern.value;
      var before := DigitsBefore(oldValue, oldCaret);
      && (SlotsBelow(t, |newFormatted|) > before ==>
            0 < caret <= |newFormatted| && IsSlot(t, caret - 1) && SlotsBelow(t, caret - 1) == before)
      && (SlotsBelow(t, |newFormatted|) <= before ==> caret == |newFormatted|))
  }

  /** The backward walk of `calculateCursorPosition`: the last slot before `oldCaret`, or 0. */
  method SlotBeforeCaret(t: string, oldCaret: nat) returns (caret: int)
    ensures 0 <= caret
    ensures caret < oldCaret || caret == 0
    ensures IsSlot(t, caret) || caret == 0
    ensures forall j :: caret < j < oldCaret ==> !IsSlot(t, j)
  {
    var newPos := oldCaret - 1;
    while newPos >= 0 && !IsSlot(t, newPos)
      invariant -1 <= newPos < oldCaret
      invariant forall j :: newPos < j < oldCaret ==> !IsSlot(t, j)
      decreases newPos
    {
      newPos := newPos - 1;
    }
    return if newPos < 0 then 0 else newPos;
  }

  /**
   * The forward walk of `calculateCursorPosition`: just after the slot of digit
   * number `target + 1` among the first `len` template positions, or `len`.
   */
  method CaretAfterDigit(t: string, len: nat, target: nat) returns (caret: int)
    ensures SlotsBelow(t, len) > target ==>
      0 < caret <= len && IsSlot(t, caret - 1) && SlotsBelow(t, caret - 1) == target
    ensures SlotsBelow(t, len) <= target ==> caret == len
  {
    var digitsSeen := 0;
    var i := 0;
    while i < len
      invariant 0 <= i <= len
      invariant digitsSeen == SlotsBelow(t, i) <= target
    {
      SlotsBelowNext(t, i);
      if IsSlot(t, i) {
        digitsSeen := digitsSeen + 1;
        if digitsSeen > target {
          SlotsBelowMono(t, i + 1, len);
          return i + 1;
        }
      }
      i := i + 1;
    }
    return len;
  }

  /**
   * After typing into a displayed value, the caret rule puts the caret right
   * after the displayed digit whose turn comes after the digits left of the old
   * caret, whenever the new display has that many digits.
   */
  lemma CaretFollowsDigit(digits: string, t: string, before: nat)
    requires before < Min(|digits|, Slots(t))
    ensures SlotsBelow(t, |Fill(digits, t)|) > before
  {
    FillConsumed(digits, t);
  }

  // ---------------------------------------------------------------------------
  // Placeholder and progress target

  /** `formatPattern.replace(/#/g, '0')`. */
  function ZeroFill(t: string): (r: string)
    ensures |r| == |t|
    ensures forall i :: 0 <= i < |t| ==> r[i] == if t[i] == '#' then '0' else t[i]
  {
    if t == [] then []
    else [if t[0] == '#' then '0' else t[0]] + ZeroFill(t[1..])
  }

  /** The template with zeros is what an all-zero value fills it to. */
  lemma {:induction false} ZeroFillIsZeroDisplay(t: string)
    requires EndsInSlot(t)
    ensures ZeroFill(t) == Fill(Repeat('0', Slots(t)), t)
    decreases |t|, 1
  {
    if t[0] == '#' {
      ZeroFillSlotFirst(t);
    } else {
      ZeroFillLiteralFirst(t);
    }
  }

  lemma {:induction false} ZeroFillSlotFirst(t: string)
    requires EndsInSlot(t) && t[0] == '#'
    ensures ZeroFill(t) == Fill(Repeat('0', Slots(t)), t)
    decreases |t|, 0
  {
    SlotsTail(t);
    var rest := t[1..];
    var zeros := Repeat('0', Slots(rest));
    assert Repeat('0', Slots(t)) == ['0'] + zeros;
    FillSlotFirst('0', zeros, t);
    if rest != [] {
      EndsInSlotTail(t);
      ZeroFillIsZeroDisplay(rest);
    }
  }

  lemma {:induction false} ZeroFillLiteralFirst(t: string)
    requires EndsInSlot(t) && t[0] != '#'
    ensures ZeroFill(t) == Fill(Repeat('0', Slots(t)), t)
    decreases |t|, 0
  {
    SlotsTail(t);
    var rest := t[1..];
    EndsInSlotTail(t);
    assert rest[|rest| - 1] in rest;
    var zeros := Repeat('0', Slots(rest));
    assert zeros != [];
    ZeroFillIsZeroDisplay(rest);
    assert [t[0]] + rest == t;
    FillLiteralFirst(zeros, t[0], rest);
    assert Repeat('0', Slots(t)) == zeros;
    assert ZeroFill(t) == [t[0]] + ZeroFill(rest);
  }

  /**
   * `getPlaceholder`: a given placeholder wins; under a template, the template with
   * zeros, prefixed by the calling code and a space for phone formats when the
   * code is shown; otherwise "Enter <label in lower case>" or "Enter number".
   * The fixed examples for PHONE_IN, AADHAAR and CARD are never reached: those
   * names always resolve to a template.
   */
  function GetPlaceholder(p: Props, placeholder: Option<string>, fieldLabel: Option<string>,
                          showCountryCode: bool, country: CountryKey): (r: string)
    ensures placeholder.Some? && placeholder.value != "" ==> r == placeholder.value
    ensures (placeholder.None? || placeholder.value == "") && Pattern(p).Some? ==>
      var example := ZeroFill(Pattern(p).value);
      if showCountryCode && Includes(p.format.value, "PHONE") then r == CountryOf(country).code + " " + example
      else r == example
    ensures (placeholder.None? || placeholder.value == "") && Pattern(p).None? ==>
      r == "Enter " + if fieldLabel.Some? && fieldLabel.value != "" then ToLowerAscii(fieldLabel.value) else "number"
  {
    assert Key(PHONE_IN) == "PHONE_IN" && Key(AADHAAR) == "AADHAAR" && Key(CARD) == "CARD";
    if placeholder.Some? && placeholder.value != "" then placeholder.value
    else match Pattern(p)
      case Some(t) =>
        var example := ZeroFill(t);
        if showCountryCode && p.format.Some? && Includes(p.format.value, "PHONE") then
          CountryOf(country).code + " " + example
        else example
      case None =>
        if p.format == Some("PHONE_IN") then "98765 43210"
        else if p.format == Some("AADHAAR") then "1234 5678 9012"
        else if p.format == Some("CARD") then "1234 5678 9012 3456"
        else "Enter " + (if fieldLabel.Some? && fieldLabel.value != "" then ToLowerAscii(fieldLabel.value) else "number")
  }

  /**
   * `getExpectedDigitCount`: `maxLength` when given, else the number of slots of the
   * template, else nothing.
   */
  function GetExpectedDigitCount(p: Props): (r: Option<int>)
    ensures p.maxLength != 0 ==> r == Some(p.maxLength)
    ensures p.maxLength == 0 ==> (r.Some? <==> Pattern(p).Some?)
    ensures p.maxLength == 0 && Pattern(p).Some? ==> r.value == |KeepIf(Pattern(p).value, IsSlotMark)|
  {
    if p.maxLength != 0 then Some(p.maxLength)
    else match Pattern(p)
      case Some(t) =>
        SlotMarksCounted(t);
        Some(Slots(t))
      case None => None
  }

  predicate IsSlotMark(c: char) { c == '#' }

  /** `t.replace(/[^#]/g, '').length` counts the slots. */
  lemma {:induction false} SlotMarksCounted(t: string)
    ensures |KeepIf(t, IsSlotMark)| == Slots(t)
  {
    if t != [] {
      SlotsTail(t);
      SlotMarksCounted(t[1..]);
    }
  }

  /** The progress target of a template is exactly the number of digits that fills it. */
  lemma ExpectedCountFillsTemplate(p: Props, digits: string)
    requires p.maxLength == 0 && Pattern(p).Some? && EndsInSlot(Pattern(p).value)
    requires |digits| == GetExpectedDigitCount(p).value
    ensures |Fill(digits, Pattern(p).value)| == |Pattern(p).value|
  {
    var t := Pattern(p).value;
    var r := Fill(digits, t);
    FillConsumed(digits, t);
    if |r| < |t| {
      SlotsBeforeLast(t, |r|);
      assert false;
    }
  }

  /** A template that ends in a slot has a slot after every proper prefix. */
  lemma SlotsBeforeLast(t: string, k: nat)
    requires EndsInSlot(t) && k < |t|
    ensures SlotsBelow(t, k) < Slots(t)
  {
    assert t == t[..k] + t[k..];
    CountConcat(t[..k], t[k..], '#');
    assert t[|t| - 1] in t[k..];
  }
}
