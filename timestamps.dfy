/** Timestamps are the strings written by strftime('%Y-%m-%d %H:%M:%S').
    The store compares them as Python compares `str` values: code point by
    code point, with a proper prefix ordered before the longer string. */
module Timestamps {

  /** Python's `a <= b` on two strings. */
  predicate Le(a: string, b: string)
    decreases |a|
  {
    if |a| == 0 then true
    else if |b| == 0 then false
    else if a[0] != b[0] then a[0] < b[0]
    else Le(a[1..], b[1..])
  }

  /** Python's `a < b` on two strings. */
  predicate Lt(a: string, b: string)
  {
    Le(a, b) && a != b
  }

  lemma {:induction false} LeReflexive(a: string)
    ensures Le(a, a)
    decreases |a|
  {
    if |a| > 0 {
      LeReflexive(a[1..]);
    }
  }

  lemma {:induction false} LeTransitive(a: string, b: string, c: string)
    requires Le(a, b) && Le(b, c)
    ensures Le(a, c)
    decreases |a|
  {
    if |a| > 0 && |b| > 0 && |c| > 0 && a[0] == b[0] == c[0] {
      LeTransitive(a[1..], b[1..], c[1..]);
    }
  }

  lemma {:induction false} LeTotal(a: string, b: string)
    ensures Le(a, b) || Le(b, a)
    decreases |a|
  {
    if |a| > 0 && |b| > 0 && a[0] == b[0] {
      LeTotal(a[1..], b[1..]);
    }
  }

  lemma {:induction false} LeAntisymmetric(a: string, b: string)
    requires Le(a, b) && Le(b, a)
    ensures a == b
    decreases |a|
  {
    if |a| > 0 && |b| > 0 {
      LeAntisymmetric(a[1..], b[1..]);
      assert a == [a[0]] + a[1..];
      assert b == [b[0]] + b[1..];
    }
  }

  /** The hour key `s[:13]`: for a well-formed timestamp that is
      'YYYY-MM-DD HH'. Python slicing never fails on a shorter string. */
  function HourKey(s: string): (k: string)
    ensures |k| == if |s| < 13 then |s| else 13
    ensures k <= s
  {
    if |s| <= 13 then s else s[..13]
  }

  // Well-formed timestamps and their calendar fields.

  predicate IsDigit(c: char)
  {
    '0' <= c <= '9'
  }

  predicate AllDigits(s: string)
  {
    forall i :: 0 <= i < |s| ==> IsDigit(s[i])
  }

  function Pow10(n: nat): (p: nat)
    ensures p >= 1
  {
    if n == 0 then 1 else 10 * Pow10(n - 1)
  }

  function DigitValue(c: char): (d: nat)
    requires IsDigit(c)
    ensures d <= 9
  {
    (c as int) - ('0' as int)
  }

  lemma AllDigitsTail(s: string)
    requires AllDigits(s) && s != []
    ensures IsDigit(s[0]) && AllDigits(s[1..])
  {
    assert forall i :: 0 <= i < |s| - 1 ==> s[1..][i] == s[i + 1];
  }

  /** A leading digit weighs more than everything after it. */
  lemma LeadingDigit(d: nat, rest: nat, e: nat, rest': nat, p: nat)
    requires rest < p && rest' < p && d < e
    ensures d * p + rest < e * p + rest'
  {
    assert (d + 1) * p <= e * p;
    assert (d + 1) * p == d * p + p;
  }

  /** The number a string of decimal digits spells. */
  function Number(s: string): (n: nat)
    requires AllDigits(s)
    ensures n < Pow10(|s|)
  {
    if s == [] then 0
    else
      AllDigitsTail(s);
      var p := Pow10(|s| - 1);
      var rest := Number(s[1..]);
      LeadingDigit(DigitValue(s[0]), rest, 10, 0, p);
      DigitValue(s[0]) * p + rest
  }

  lemma NumberUnfold(s: string)
    requires AllDigits(s) && s != []
    ensures AllDigits(s[1..])
    ensures Number(s) == DigitValue(s[0]) * Pow10(|s| - 1) + Number(s[1..])
  {
    AllDigitsTail(s);
  }

  /** Of two digit strings of one width, the one with the smaller leading
      digit is smaller both as a string and as a number. */
  lemma SmallerLead(a: string, b: string)
    requires |a| == |b| > 0 && AllDigits(a) && AllDigits(b)
    requires a[0] < b[0]
    ensures Le(a, b) && !Le(b, a) && Number(a) < Number(b)
  {
    NumberUnfold(a);
    NumberUnfold(b);
    LeadingDigit(DigitValue(a[0]), Number(a[1..]), DigitValue(b[0]), Number(b[1..]), Pow10(|a| - 1));
  }

  /** Digit strings of one width compare as the numbers they spell. */
  lemma {:induction false} DigitsOrder(a: string, b: string)
    requires |a| == |b| && AllDigits(a) && AllDigits(b)
    ensures Le(a, b) <==> Number(a) <= Number(b)
    ensures a == b <==> Number(a) == Number(b)
    decreases |a|
  {
    if |a| > 0 {
      if a[0] < b[0] {
        SmallerLead(a, b);
      } else if b[0] < a[0] {
        SmallerLead(b, a);
      } else {
        NumberUnfold(a);
        NumberUnfold(b);
        DigitsOrder(a[1..], b[1..]);
        assert a == [a[0]] + a[1..] && b == [b[0]] + b[1..];
      }
    }
  }

  /** 'YYYY-MM-DD HH:MM:SS' */
  predicate IsStamp(s: string)
  {
    && |s| == 19
    && AllDigits(s[0..4]) && s[4] == '-' && AllDigits(s[5..7]) && s[7] == '-'
    && AllDigits(s[8..10]) && s[10] == ' ' && AllDigits(s[11..13]) && s[13] == ':'
    && AllDigits(s[14..16]) && s[16] == ':' && AllDigits(s[17..19])
  }

  /** A local date and time, as `pd.to_datetime` reads a timestamp. */
  datatype DateTime = DateTime(year: nat, month: nat, day: nat, hour: nat, minute: nat, second: nat)

  /** The calendar fields a well-formed timestamp spells. */
  function Parse(s: string): DateTime
    requires IsStamp(s)
  {
    DateTime(Number(s[0..4]), Number(s[5..7]), Number(s[8..10]),
             Number(s[11..13]), Number(s[14..16]), Number(s[17..19]))
  }

  /** `x <= y` on date-times: chronological order. */
  predicate NotAfter(x: DateTime, y: DateTime)
  {
    x.year < y.year || (x.year == y.year &&
    (x.month < y.month || (x.month == y.month &&
    (x.day < y.day || (x.day == y.day &&
    (x.hour < y.hour || (x.hour == y.hour &&
    (x.minute < y.minute || (x.minute == y.minute &&
    x.second <= y.second)))))))))
  }

  /** One digit field of two equally shaped strings decides the order
      unless the fields are equal. */
  lemma FieldStep(a: string, b: string, i: nat, j: nat)
    requires i < j <= |a| == |b|
    requires AllDigits(a[i..j]) && AllDigits(b[i..j])
    ensures Le(a[i..], b[i..]) <==>
      Number(a[i..j]) < Number(b[i..j]) ||
      (Number(a[i..j]) == Number(b[i..j]) && Le(a[j..], b[j..]))
  {
    DigitsOrder(a[i..j], b[i..j]);
    assert a[i..] == a[i..j] + a[j..] && b[i..] == b[i..j] + b[j..];
    LeSplit(a[i..j], a[j..], b[i..j], b[j..]);
  }

  /** A separator both strings share does not affect the order. */
  lemma SeparatorStep(a: string, b: string, i: nat)
    requires i < |a| == |b| && a[i] == b[i]
    ensures Le(a[i..], b[i..]) <==> Le(a[i + 1..], b[i + 1..])
  {
    assert a[i..][1..] == a[i + 1..] && b[i..][1..] == b[i + 1..];
  }

  /** Comparing two concatenations whose first parts have one width: the
      first parts decide unless they are equal. */
  lemma {:induction false} LeSplit(x: string, y: string, x': string, y': string)
    requires |x| == |x'|
    ensures Le(x + y, x' + y') <==> if x == x' then Le(y, y') else Le(x, x')
    decreases |x|
  {
    if |x| > 0 {
      assert (x + y)[0] == x[0] && (x' + y')[0] == x'[0];
      assert (x + y)[1..] == x[1..] + y && (x' + y')[1..] == x'[1..] + y';
      LeSplit(x[1..], y, x'[1..], y');
      if x[0] == x'[0] {
        assert x == [x[0]] + x[1..] && x' == [x'[0]] + x'[1..];
      }
    } else {
      assert x + y == y && x' + y' == y';
    }
  }

  /** On well-formed timestamps, string order is chronological order, so
      comparing the strings is comparing the date-times they spell. */
  lemma StampOrderIsChronological(a: string, b: string)
    requires IsStamp(a) && IsStamp(b)
    ensures Le(a, b) <==> NotAfter(Parse(a), Parse(b))
  {
    var x, y := Parse(a), Parse(b);
    assert a[0..] == a && b[0..] == b;
    FieldStep(a, b, 0, 4);
    SeparatorStep(a, b, 4);
    FieldStep(a, b, 5, 7);
    SeparatorStep(a, b, 7);
    FieldStep(a, b, 8, 10);
    SeparatorStep(a, b, 10);
    FieldStep(a, b, 11, 13);
    SeparatorStep(a, b, 13);
    FieldStep(a, b, 14, 16);
    SeparatorStep(a, b, 16);
    FieldStep(a, b, 17, 19);
    assert Le(a[19..], b[19..]);
  }
}
