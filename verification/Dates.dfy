/** Days written as YYYY-MM-DD: text order is day order. */
module Dates {
  import opened Ordering
  import opened Decimal

  /** With a common length the first part decides, then the second. */
  lemma {:induction false} TextConcat(a: string, b: string, c: string, d: string)
    requires |a| == |b|
    ensures TextLess(a + c, b + d) <==> TextLess(a, b) || (a == b && TextLess(c, d))
  {
    if a == "" {
      assert a + c == c && b + d == d;
    } else {
      assert (a + c)[1..] == a[1..] + c && (b + d)[1..] == b[1..] + d;
      TextConcat(a[1..], b[1..], c, d);
      assert a == [a[0]] + a[1..] && b == [b[0]] + b[1..];
    }
  }

  lemma {:induction false} ValueInjective(a: string, b: string)
    requires |a| == |b| && AllDigits(a) && AllDigits(b) && Value(a) == Value(b)
    ensures a == b
  {
    if a != "" {
      var n := |a| - 1;
      assert IsDigit(a[n]) && IsDigit(b[n]);
      ValueInjective(a[..n], b[..n]);
      assert a == a[..n] + [a[n]] && b == b[..n] + [b[n]];
    }
  }

  /** Numerals of one length are ordered as their numbers. */
  lemma {:induction false} DigitsOrder(a: string, b: string)
    requires |a| == |b| && AllDigits(a) && AllDigits(b)
    ensures TextLess(a, b) <==> Value(a) < Value(b)
  {
    if a != "" {
      var n := |a| - 1;
      var p, q := a[..n], b[..n];
      DigitsOrder(p, q);
      TextConcat(p, q, [a[n]], [b[n]]);
      assert a == p + [a[n]] && b == q + [b[n]];
      assert IsDigit(a[n]) && IsDigit(b[n]);
      assert TextLess([a[n]], [b[n]]) <==> a[n] < b[n];
      if Value(p) == Value(q) {
        ValueInjective(p, q);
      }
    }
  }

  datatype Day = Day(year: nat, month: nat, day: nat)

  predicate Earlier(a: Day, b: Day) {
    a.year < b.year || (a.year == b.year && (a.month < b.month || (a.month == b.month && a.day < b.day)))
  }

  predicate Field(s: string, width: nat, n: nat) { |s| == width && AllDigits(s) && Value(s) == n }

  /** `s` is the day in the form YYYY-MM-DD. */
  predicate Writes(s: string, d: Day) {
    && |s| == 10 && s[4] == '-' && s[7] == '-'
    && Field(s[..4], 4, d.year) && Field(s[5..7], 2, d.month) && Field(s[8..], 2, d.day)
  }

  lemma TextOrderIsDayOrder(a: string, d: Day, b: string, e: Day)
    requires Writes(a, d) && Writes(b, e)
    ensures TextLess(a, b) <==> Earlier(d, e)
  {
    assert a == a[..4] + ("-" + (a[5..7] + ("-" + a[8..])));
    assert b == b[..4] + ("-" + (b[5..7] + ("-" + b[8..])));
    TextConcat(a[..4], b[..4], "-" + (a[5..7] + ("-" + a[8..])), "-" + (b[5..7] + ("-" + b[8..])));
    TextConcat("-", "-", a[5..7] + ("-" + a[8..]), b[5..7] + ("-" + b[8..]));
    TextConcat(a[5..7], b[5..7], "-" + a[8..], "-" + b[8..]);
    TextConcat("-", "-", a[8..], b[8..]);
    SameField(a[..4], b[..4], 4, d.year, e.year);
    SameField(a[5..7], b[5..7], 2, d.month, e.month);
    SameField(a[8..], b[8..], 2, d.day, e.day);
    TextTrichotomy("-", "-");
  }

  lemma SameField(a: string, b: string, width: nat, n: nat, m: nat)
    requires Field(a, width, n) && Field(b, width, m)
    ensures (a == b <==> n == m) && (TextLess(a, b) <==> n < m)
  {
    DigitsOrder(a, b);
    if n == m {
      ValueInjective(a, b);
    }
  }
}
