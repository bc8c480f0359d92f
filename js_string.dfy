/**
 * The JavaScript string built-ins that the input engine relies on, with the
 * semantics the ECMAScript language gives them: regular-expression removal of a
 * character class (`replace(/[^...]/g, '')`), `split`/`join`, `slice` with its
 * clamping of negative and out-of-range indices, `substring`, `indexOf`,
 * `startsWith`, `includes`, `repeat`, ASCII `toLowerCase` and the decimal
 * rendering of an integer in a template literal.
 */
module JsString {

  /** JavaScript's `\d` character class: the ASCII digits and nothing else. */
  predicate IsDigit(c: char) { '0' <= c <= '9' }

  /** The class kept by `/[^\d-]/g`. */
  predicate IsDigitOrMinus(c: char) { IsDigit(c) || c == '-' }

  /** The class kept by `/[^\d.-]/g`. */
  predicate IsNumeric(c: char) { IsDigit(c) || c == '.' || c == '-' }

  /** The class kept by `/-/g` (every minus sign removed). */
  predicate IsNotMinus(c: char) { c != '-' }

  /** Everything but the decimal point. */
  predicate IsNotDot(c: char) { c != '.' }

  predicate AllDigits(s: string) {
    forall c :: c in s ==> IsDigit(c)
  }

  /** `s.replace(/[^K]/g, '')`: the characters of `s` in class `keep`, in their order. */
  function KeepIf(s: string, keep: char -> bool): string
  {
    if s == [] then [] else (if keep(s[0]) then [s[0]] else []) + KeepIf(s[1..], keep)
  }

  /** A character survives the filter exactly when it occurs and belongs to the class. */
  lemma {:induction false} KeepIfMembers(s: string, keep: char -> bool)
    ensures |KeepIf(s, keep)| <= |s|
    ensures forall c :: c in KeepIf(s, keep) <==> c in s && keep(c)
  {
    if s != [] {
      KeepIfMembers(s[1..], keep);
      assert s == [s[0]] + s[1..];
    }
  }

  /** Filtering a string with a known first character. */
  lemma KeepCons(c: char, s: string, keep: char -> bool)
    ensures KeepIf([c] + s, keep) == (if keep(c) then [c] else []) + KeepIf(s, keep)
  {
    assert ([c] + s)[1..] == s;
  }

  /** Filtering a single character. */
  lemma KeepOne(c: char, keep: char -> bool)
    ensures KeepIf([c], keep) == if keep(c) then [c] else []
  {
    assert [c][1..] == [];
  }

  /** `s.replace(/\D/g, '')`. */
  function Digits(s: string): (r: string)
    ensures AllDigits(r) && |r| <= |s|
  {
    KeepIfMembers(s, IsDigit);
    KeepIf(s, IsDigit)
  }

  /** The number of occurrences of `c` in `s`. */
  function Count(s: string, c: char): (n: nat)
    ensures n == 0 <==> c !in s
  {
    multiset(s)[c]
  }

  lemma CountConcat(a: string, b: string, c: char)
    ensures Count(a + b, c) == Count(a, c) + Count(b, c)
  {
    assert multiset(a + b) == multiset(a) + multiset(b);
  }

  lemma {:induction false} KeepIfConcat(a: string, b: string, keep: char -> bool)
    ensures KeepIf(a + b, keep) == KeepIf(a, keep) + KeepIf(b, keep)
  {
    if a == [] {
      assert a + b == b;
    } else {
      assert (a + b)[1..] == a[1..] + b;
      KeepIfConcat(a[1..], b, keep);
    }
  }

  /** Removing a class that every character already belongs to changes nothing. */
  lemma {:induction false} KeepIfAll(s: string, keep: char -> bool)
    requires forall i :: 0 <= i < |s| ==> keep(s[i])
    ensures KeepIf(s, keep) == s
  {
    if s != [] {
      KeepIfAll(s[1..], keep);
    }
  }

  /** Filtering keeps exactly the occurrences of a kept character. */
  lemma {:induction false} CountKeepIf(s: string, keep: char -> bool, c: char)
    ensures Count(KeepIf(s, keep), c) == if keep(c) then Count(s, c) else 0
  {
    if s != [] {
      assert s == [s[0]] + s[1..];
      CountConcat([s[0]], s[1..], c);
      CountKeepIf(s[1..], keep, c);
      CountConcat(if keep(s[0]) then [s[0]] else [], KeepIf(s[1..], keep), c);
    }
  }

  /** Filtering `a`, one character, `b` filters the three pieces. */
  lemma KeepAround(a: string, b: string, c: char, keep: char -> bool)
    ensures KeepIf(a + [c] + b, keep) == KeepIf(a, keep) + KeepIf([c], keep) + KeepIf(b, keep)
  {
    KeepIfConcat(a + [c], b, keep);
    KeepIfConcat(a, [c], keep);
  }

  /** Filtering out the one character between two kept strings. */
  lemma {:induction false} DropBetween(a: string, b: string, c: char, keep: char -> bool)
    requires !keep(c)
    requires forall i :: 0 <= i < |a| ==> keep(a[i])
    requires forall i :: 0 <= i < |b| ==> keep(b[i])
    ensures KeepIf(a + [c] + b, keep) == a + b
  {
    if a == [] {
      assert a + [c] + b == [c] + b;
      assert ([c] + b)[1..] == b;
      KeepIfAll(b, keep);
    } else {
      assert (a + [c] + b)[1..] == a[1..] + [c] + b;
      DropBetween(a[1..], b, c, keep);
      assert a + b == [a[0]] + (a[1..] + b);
    }
  }

  /** The digits of a prefix are a prefix of the digits. */
  lemma {:induction false} KeepIfPrefix(s: string, k: nat, keep: char -> bool)
    requires k <= |s|
    ensures KeepIf(s[..k], keep) <= KeepIf(s, keep)
  {
    assert s == s[..k] + s[k..];
    KeepIfConcat(s[..k], s[k..], keep);
  }

  /** How `slice` and `substring` turn an index argument into a position: negative counts from the end. */
  function ClampIndex(k: int, len: nat): (r: nat)
    ensures r <= len
    ensures 0 <= k <= len ==> r == k
  {
    if k < 0 then (if len + k < 0 then 0 else len + k) else if k > len then len else k
  }

  /** `s.slice(start, end)`. */
  function Slice(s: string, start: int, end: int): (r: string)
    ensures |r| <= |s|
    ensures forall c :: c in r ==> c in s
    ensures 0 <= start <= end <= |s| ==> r == s[start..end]
  {
    var from := ClampIndex(start, |s|);
    var to := ClampIndex(end, |s|);
    if from < to then s[from..to] else ""
  }

  /** `s.slice(start)`. */
  function SliceFrom(s: string, start: int): (r: string)
    ensures |r| <= |s|
    ensures forall c :: c in r ==> c in s
  {
    Slice(s, start, |s|)
  }

  /** `slice(0, k)` and `slice(k)` cut the string at the same place, for every `k`. */
  lemma SliceSplit(s: string, k: int)
    ensures Slice(s, 0, k) + SliceFrom(s, k) == s
  {
    var c := ClampIndex(k, |s|);
    assert s == s[..c] + s[c..];
  }

  /** `slice(0, k)` is a prefix, whatever `k`. */
  lemma SlicePrefix(s: string, k: int)
    ensures Slice(s, 0, k) <= s
  {
  }

  /** `s.substring(start, end)`: arguments clamped to `[0, |s|]` and swapped when out of order. */
  function Substring(s: string, start: int, end: int): (r: string)
    ensures |r| <= |s|
  {
    var a := if start < 0 then 0 else if start > |s| then |s| else start;
    var b := if end < 0 then 0 else if end > |s| then |s| else end;
    if a <= b then s[a..b] else s[b..a]
  }

  /** `s.indexOf(c)`: the first position of `c`, or -1. */
  function IndexOf(s: string, c: char): (r: int)
    ensures r == -1 <==> c !in s
    ensures r != -1 ==> 0 <= r < |s| && s[r] == c && c !in s[..r]
  {
    if s == [] then -1
    else if s[0] == c then 0
    else
      var k := IndexOf(s[1..], c);
      assert s[1..] == s[1..][..|s| - 1];
      if k == -1 then -1
      else
        assert s[..k + 1] == [s[0]] + s[1..][..k];
        k + 1
  }

  /** `s.startsWith(p)`. */
  predicate StartsWith(s: string, p: string) {
    p <= s
  }

  /** `s.includes(sub)` for a substring. */
  predicate Includes(s: string, sub: string)
    decreases |s|
  {
    sub <= s || (s != [] && Includes(s[1..], sub))
  }

  /** `parts.join(sep)`. */
  function Join(parts: seq<string>, sep: string): string
  {
    if parts == [] then ""
    else if |parts| == 1 then parts[0]
    else parts[0] + sep + Join(parts[1..], sep)
  }

  /** `s.split(sep)` for a one-character separator. */
  function Split(s: string, sep: char): (parts: seq<string>)
    ensures |parts| >= 1
  {
    if s == [] then [""]
    else
      var rest := Split(s[1..], sep);
      if s[0] == sep then [""] + rest else [[s[0]] + rest[0]] + rest[1..]
  }

  /** `split` yields one part more than there are separators, and no part holds one. */
  lemma {:induction false} SplitParts(s: string, sep: char)
    ensures |Split(s, sep)| == Count(s, sep) + 1
    ensures forall i :: 0 <= i < |Split(s, sep)| ==> sep !in Split(s, sep)[i]
  {
    if s != [] {
      SplitParts(s[1..], sep);
      assert s == [s[0]] + s[1..];
      CountConcat([s[0]], s[1..], sep);
    }
  }

  /** Joining the parts of a `split` with the separator restores the string. */
  lemma {:induction false} SplitJoin(s: string, sep: char)
    ensures Join(Split(s, sep), [sep]) == s
  {
    if s != [] {
      var rest := Split(s[1..], sep);
      SplitJoin(s[1..], sep);
      if s[0] == sep {
        assert Join([""] + rest, [sep]) == "" + [sep] + Join(rest, [sep]);
      } else {
        var parts := [[s[0]] + rest[0]] + rest[1..];
        assert parts[1..] == rest[1..];
        assert Join(parts, [sep]) == [s[0]] + Join(rest, [sep]);
      }
    }
  }

  /** Removing the points from a `.`-joined list is joining its parts with nothing in between. */
  lemma {:induction false} JoinWithoutDots(parts: seq<string>)
    requires forall i :: 0 <= i < |parts| ==> '.' !in parts[i]
    ensures KeepIf(Join(parts, "."), IsNotDot) == Join(parts, "")
  {
    if |parts| == 1 {
      KeepIfAll(parts[0], IsNotDot);
    } else if |parts| > 1 {
      JoinWithoutDots(parts[1..]);
      KeepIfAll(parts[0], IsNotDot);
      KeepIfConcat(parts[0] + ".", Join(parts[1..], "."), IsNotDot);
      KeepIfConcat(parts[0], ".", IsNotDot);
    }
  }

  /** `String(c).repeat(n)`. */
  function Repeat(c: char, n: nat): (r: string)
    ensures |r| == n
    ensures forall i :: 0 <= i < n ==> r[i] == c
  {
    if n == 0 then [] else [c] + Repeat(c, n - 1)
  }

  function LowerChar(c: char): char {
    if 'A' <= c <= 'Z' then (c as int + 32) as char else c
  }

  /** `s.toLowerCase()` on the ASCII letters. */
  function ToLowerAscii(s: string): (r: string)
    ensures |r| == |s|
    ensures forall i :: 0 <= i < |r| ==> !('A' <= r[i] <= 'Z')
    ensures forall i :: 0 <= i < |s| && !('A' <= s[i] <= 'Z') ==> r[i] == s[i]
  {
    seq(|s|, i requires 0 <= i < |s| => LowerChar(s[i]))
  }

  function DigitChar(d: nat): char
    requires d < 10
  {
    ('0' as int + d) as char
  }

  function NatToString(n: nat): (r: string)
    ensures r != [] && AllDigits(r)
  {
    if n < 10 then [DigitChar(n)] else NatToString(n / 10) + [DigitChar(n % 10)]
  }

  /** An integer interpolated into a template literal: its decimal digits, `-` first when negative. */
  function IntToString(n: int): string
  {
    if n < 0 then "-" + NatToString(-n) else NatToString(n)
  }
}
