/** Stable sorting, as `sorted(xs, key=...)` does it, and slices. */
module Ordering {

  ghost predicate Preorder<T(!new)>(le: (T, T) -> bool) {
    && (forall x, y :: le(x, y) || le(y, x))
    && (forall x, y, z :: le(x, y) && le(y, z) ==> le(x, z))
  }

  function Insert<T>(x: T, s: seq<T>, le: (T, T) -> bool): (r: seq<T>)
    ensures multiset(r) == multiset(s) + multiset{x}
    ensures |r| == |s| + 1
  {
    if s == [] || le(x, s[0]) then [x] + s
    else
      assert s == [s[0]] + s[1..];
      [s[0]] + Insert(x, s[1..], le)
  }

  /** In order; elements that are equal in the order keep their places. */
  function Arrange<T>(s: seq<T>, le: (T, T) -> bool): (r: seq<T>)
    ensures |r| == |s| && multiset(r) == multiset(s)
  {
    if s == [] then []
    else
      assert s == [s[0]] + s[1..];
      Insert(s[0], Arrange(s[1..], le), le)
  }

  predicate Ordered<T>(s: seq<T>, le: (T, T) -> bool) {
    forall i, j :: 0 <= i < j < |s| ==> le(s[i], s[j])
  }

  function ByKey<T>(key: T -> real): (T, T) -> bool { (x, y) => key(x) <= key(y) }

  function SortBy<T>(s: seq<T>, key: T -> real): (r: seq<T>)
    ensures |r| == |s| && multiset(r) == multiset(s)
  {
    Arrange(s, ByKey(key))
  }

  predicate Sorted<T>(s: seq<T>, key: T -> real) {
    forall i, j :: 0 <= i < j < |s| ==> key(s[i]) <= key(s[j])
  }

  function Negated<T>(key: T -> real): T -> real { x => -key(x) }

  /** `sorted(xs, key=..., reverse=True)` is stable as well. */
  function SortDescending<T>(s: seq<T>, key: T -> real): (r: seq<T>)
    ensures |r| == |s| && multiset(r) == multiset(s)
  {
    SortBy(s, Negated(key))
  }

  lemma SameElements<T>(s: seq<T>, r: seq<T>, x: T)
    requires multiset(r) == multiset(s)
    ensures x in r <==> x in s
  {
    assert x in multiset(r) <==> x in multiset(s);
  }

  lemma {:induction false} InsertOrdered<T(!new)>(x: T, s: seq<T>, le: (T, T) -> bool)
    requires Preorder(le) && Ordered(s, le)
    ensures Ordered(Insert(x, s, le), le)
  {
    if s != [] && !le(x, s[0]) {
      InsertOrdered(x, s[1..], le);
      var r := Insert(x, s[1..], le);
      forall i | 0 <= i < |r| ensures le(s[0], r[i]) {
        assert r[i] in multiset(r);
        if r[i] != x {
          assert r[i] in s[1..];
        }
      }
    } else if s != [] {
      assert forall i :: 0 < i < |s| ==> le(x, s[0]) && le(s[0], s[i]);
    }
  }

  lemma {:induction false} ArrangeOrdered<T(!new)>(s: seq<T>, le: (T, T) -> bool)
    requires Preorder(le)
    ensures Ordered(Arrange(s, le), le)
  {
    if s != [] {
      ArrangeOrdered(s[1..], le);
      InsertOrdered(s[0], Arrange(s[1..], le), le);
    }
  }

  lemma SortSorted<T(!new)>(s: seq<T>, key: T -> real)
    ensures Sorted(SortBy(s, key), key)
  {
    var r := SortBy(s, key);
    ArrangeOrdered(s, ByKey(key));
    forall i, j | 0 <= i < j < |r| ensures key(r[i]) <= key(r[j]) {
      assert ByKey(key)(r[i], r[j]);
    }
  }

  /** By `le`, and where that makes no difference by `tie`. */
  function Then<T>(le: (T, T) -> bool, tie: (T, T) -> bool): (T, T) -> bool {
    (x, y) => le(x, y) && (le(y, x) ==> tie(x, y))
  }

  lemma {:induction false} InsertThen<T(!new)>(x: T, s: seq<T>, le: (T, T) -> bool, tie: (T, T) -> bool)
    requires Preorder(le) && Ordered(s, Then(le, tie)) && forall i :: 0 <= i < |s| ==> tie(x, s[i])
    ensures Ordered(Insert(x, s, le), Then(le, tie))
  {
    if s != [] && !le(x, s[0]) {
      InsertThen(x, s[1..], le, tie);
      var r := Insert(x, s[1..], le);
      forall i | 0 <= i < |r| ensures Then(le, tie)(s[0], r[i]) {
        assert r[i] in multiset(r);
        if r[i] != x {
          var j :| 0 <= j < |s| - 1 && s[1..][j] == r[i];
          assert Then(le, tie)(s[0], s[j + 1]);
        }
      }
    } else if s != [] {
      forall i | 0 <= i < |s| ensures Then(le, tie)(x, s[i]) {
        assert i > 0 ==> Then(le, tie)(s[0], s[i]);
      }
    }
  }

  /** Sorting what is already in some order leaves equal elements in that order. */
  lemma {:induction false} ArrangeThen<T(!new)>(s: seq<T>, le: (T, T) -> bool, tie: (T, T) -> bool)
    requires Preorder(le) && Ordered(s, tie)
    ensures Ordered(Arrange(s, le), Then(le, tie))
  {
    if s != [] {
      var r := Arrange(s[1..], le);
      ArrangeThen(s[1..], le, tie);
      forall i | 0 <= i < |r| ensures tie(s[0], r[i]) {
        SameElements(s[1..], r, r[i]);
        var j :| 0 <= j < |s| - 1 && s[1..][j] == r[i];
        assert s[j + 1] == r[i];
      }
      InsertThen(s[0], r, le, tie);
    }
  }

  /** Some occurrence of `a` comes before some occurrence of `b`. */
  predicate Before<T(==)>(s: seq<T>, a: T, b: T) {
    exists i, j :: 0 <= i < j < |s| && s[i] == a && s[j] == b
  }

  lemma {:induction false} InsertBefore<T>(x: T, s: seq<T>, le: (T, T) -> bool, y: T)
    requires y in s && le(x, y)
    ensures Before(Insert(x, s, le), x, y)
  {
    if le(x, s[0]) {
      var j :| 0 <= j < |s| && s[j] == y;
      assert ([x] + s)[0] == x && ([x] + s)[j + 1] == y;
    } else {
      InsertBefore(x, s[1..], le, y);
      BeforeCons(s[0], Insert(x, s[1..], le), x, y);
    }
  }

  lemma BeforeCons<T>(h: T, s: seq<T>, a: T, b: T)
    requires Before(s, a, b)
    ensures Before([h] + s, a, b)
  {
    var i, j :| 0 <= i < j < |s| && s[i] == a && s[j] == b;
    assert ([h] + s)[i + 1] == a && ([h] + s)[j + 1] == b;
  }

  lemma {:induction false} InsertKeepsBefore<T>(x: T, s: seq<T>, le: (T, T) -> bool, a: T, b: T)
    requires Before(s, a, b)
    ensures Before(Insert(x, s, le), a, b)
  {
    if le(x, s[0]) {
      BeforeCons(x, s, a, b);
    } else {
      var i, j :| 0 <= i < j < |s| && s[i] == a && s[j] == b;
      var r := Insert(x, s[1..], le);
      if i == 0 {
        assert s[1..][j - 1] == b;
        assert b in multiset(r);
        var k :| 0 <= k < |r| && r[k] == b;
        assert ([s[0]] + r)[0] == a && ([s[0]] + r)[k + 1] == b;
      } else {
        assert s[1..][i - 1] == a && s[1..][j - 1] == b;
        InsertKeepsBefore(x, s[1..], le, a, b);
        BeforeCons(s[0], r, a, b);
      }
    }
  }

  /** An element that came first and is not larger still comes first. */
  lemma {:induction false} ArrangeStable<T>(s: seq<T>, le: (T, T) -> bool, p: nat, q: nat)
    requires p < q < |s| && le(s[p], s[q])
    ensures Before(Arrange(s, le), s[p], s[q])
  {
    var r := Arrange(s[1..], le);
    if p == 0 {
      assert s[1..][q - 1] == s[q];
      SameElements(s[1..], r, s[q]);
      InsertBefore(s[0], r, le, s[q]);
    } else {
      ArrangeStable(s[1..], le, p - 1, q - 1);
      InsertKeepsBefore(s[0], r, le, s[p], s[q]);
    }
  }

  /** Orders that agree on the elements arrange them alike. */
  lemma {:induction false} ArrangeSame<T>(s: seq<T>, f: (T, T) -> bool, g: (T, T) -> bool)
    requires forall x, y :: x in s && y in s ==> f(x, y) == g(x, y)
    ensures Arrange(s, f) == Arrange(s, g)
  {
    if s != [] {
      ArrangeSame(s[1..], f, g);
      var r := Arrange(s[1..], f);
      forall x | x in r ensures x in s {
        SameElements(s[1..], r, x);
      }
      InsertSame(s[0], r, f, g);
    }
  }

  lemma {:induction false} InsertSame<T>(x: T, s: seq<T>, f: (T, T) -> bool, g: (T, T) -> bool)
    requires forall y :: y in s ==> f(x, y) == g(x, y)
    ensures Insert(x, s, f) == Insert(x, s, g)
  {
    if s != [] {
      InsertSame(x, s[1..], f, g);
    }
  }

  // ---------------------------------------------------------------- positions

  predicate Distinct<T(==)>(s: seq<T>) {
    forall i, j :: 0 <= i < j < |s| ==> s[i] != s[j]
  }

  function Position<T(==)>(s: seq<T>, x: T): (i: nat)
    requires x in s
    ensures i < |s| && s[i] == x
    ensures forall j :: 0 <= j < i ==> s[j] != x
  {
    if s[0] == x then 0 else 1 + Position(s[1..], x)
  }

  lemma BeforePosition<T>(s: seq<T>, a: T, b: T)
    requires Distinct(s) && a in s && b in s
    ensures Before(s, a, b) <==> Position(s, a) < Position(s, b)
  {
    if Before(s, a, b) {
      var i, j :| 0 <= i < j < |s| && s[i] == a && s[j] == b;
      assert i == Position(s, a) && j == Position(s, b);
    }
  }

  lemma {:induction false} DistinctCounts<T>(s: seq<T>, x: T)
    requires Distinct(s) && x in s
    ensures multiset(s)[x] == 1
  {
    var t, last := s[..|s| - 1], s[|s| - 1];
    assert s == t + [last];
    if x == last {
      assert last !in t;
    } else {
      DistinctCounts(t, x);
    }
  }

  lemma CountsDistinct<T>(s: seq<T>)
    requires forall x :: x in s ==> multiset(s)[x] == 1
    ensures Distinct(s)
  {
    forall i, j | 0 <= i < j < |s| ensures s[i] != s[j] {
      var a, b := s[..j], s[j..];
      assert s == a + b;
      assert multiset(s)[s[j]] == multiset(a)[s[j]] + multiset(b)[s[j]];
      assert b[0] == s[j] && s[j] in b;
      assert s[i] == a[i] && s[i] in a;
    }
  }

  lemma PermutationDistinct<T>(s: seq<T>, r: seq<T>)
    requires Distinct(s) && multiset(r) == multiset(s)
    ensures Distinct(r)
  {
    forall x | x in r ensures multiset(r)[x] == 1 {
      SameElements(s, r, x);
      DistinctCounts(s, x);
    }
    CountsDistinct(r);
  }

  function Elements<T>(s: seq<T>): set<T> { set x | x in s }

  lemma {:induction false} DistinctSize<T>(s: seq<T>)
    requires Distinct(s)
    ensures |Elements(s)| == |s|
  {
    if s != [] {
      var t, last := s[..|s| - 1], s[|s| - 1];
      DistinctSize(t);
      assert Elements(s) == Elements(t) + {last};
      assert last !in t;
    }
  }

  lemma DescendingSame<T>(s: seq<T>, f: T -> real, g: T -> real)
    requires forall x :: x in s ==> f(x) == g(x)
    ensures SortDescending(s, f) == SortDescending(s, g)
  {
    ArrangeSame(s, ByKey(Negated(f)), ByKey(Negated(g)));
  }

  lemma DescendingTop<T(!new)>(s: seq<T>, key: T -> real)
    requires s != []
    ensures SortDescending(s, key)[0] in s
    ensures forall x :: x in s ==> key(x) <= key(SortDescending(s, key)[0])
  {
    var r := SortDescending(s, key);
    SortSorted(s, Negated(key));
    SameElements(s, r, r[0]);
    forall x | x in s ensures key(x) <= key(r[0]) {
      SameElements(s, r, x);
      var p := Position(r, x);
      assert p > 0 ==> Negated(key)(r[0]) <= Negated(key)(r[p]);
    }
  }

  /** Of two distinct elements, the one with the larger key comes first, and on equal keys
      the one that came first. */
  lemma DescendingPosition<T(!new)>(s: seq<T>, key: T -> real, a: T, b: T)
    requires Distinct(s) && a in s && b in s && a != b
    ensures Distinct(SortDescending(s, key)) && a in SortDescending(s, key) && b in SortDescending(s, key)
    ensures Position(SortDescending(s, key), a) < Position(SortDescending(s, key), b)
            <==> key(a) > key(b) || (key(a) == key(b) && Position(s, a) < Position(s, b))
  {
    var r := SortDescending(s, key);
    PermutationDistinct(s, r);
    SameElements(s, r, a);
    SameElements(s, r, b);
    SortSorted(s, Negated(key));
    var p, q := Position(r, a), Position(r, b);
    assert p != q;
    if key(a) == key(b) {
      BeforePosition(r, a, b);
      BeforePosition(r, b, a);
      if Position(s, a) < Position(s, b) {
        ArrangeStable(s, ByKey(Negated(key)), Position(s, a), Position(s, b));
      } else {
        ArrangeStable(s, ByKey(Negated(key)), Position(s, b), Position(s, a));
      }
    }
  }

  // ---------------------------------------------------------------- text

  /** String order, character by character. */
  predicate TextLess(a: string, b: string) {
    if b == "" then false
    else if a == "" then true
    else a[0] < b[0] || (a[0] == b[0] && TextLess(a[1..], b[1..]))
  }

  lemma {:induction false} TextTrichotomy(a: string, b: string)
    ensures TextLess(a, b) || TextLess(b, a) <==> a != b
    ensures !(TextLess(a, b) && TextLess(b, a))
  {
    if a != "" && b != "" {
      TextTrichotomy(a[1..], b[1..]);
      assert a == [a[0]] + a[1..] && b == [b[0]] + b[1..];
    }
  }

  lemma {:induction false} TextTransitive(a: string, b: string, c: string)
    requires TextLess(a, b) && TextLess(b, c)
    ensures TextLess(a, c)
  {
    if a != "" && a[0] == b[0] == c[0] {
      TextTransitive(a[1..], b[1..], c[1..]);
    }
  }

  function ByText<T>(key: T -> string): (T, T) -> bool { (x, y) => !TextLess(key(y), key(x)) }

  lemma ByTextPreorder<T(!new)>(key: T -> string)
    ensures Preorder(ByText(key))
  {
    forall x, y ensures ByText(key)(x, y) || ByText(key)(y, x) {
      TextTrichotomy(key(x), key(y));
    }
    forall x, y, z | ByText(key)(x, y) && ByText(key)(y, z) ensures ByText(key)(x, z) {
      TextTrichotomy(key(x), key(y));
      TextTrichotomy(key(y), key(z));
      if TextLess(key(z), key(x)) {
        if TextLess(key(y), key(z)) {
          TextTransitive(key(y), key(z), key(x));
        }
      }
    }
  }

  // ---------------------------------------------------------------- counting

  function CountIf<T>(s: seq<T>, p: T -> bool): (n: nat)
    ensures n <= |s|
  {
    if s == [] then 0 else CountIf(s[..|s| - 1], p) + if p(s[|s| - 1]) then 1 else 0
  }

  lemma {:induction false} CountConcat<T>(a: seq<T>, b: seq<T>, p: T -> bool)
    ensures CountIf(a + b, p) == CountIf(a, p) + CountIf(b, p)
  {
    if b == [] {
      assert a + b == a;
    } else {
      assert (a + b)[..|a + b| - 1] == a + b[..|b| - 1];
      CountConcat(a, b[..|b| - 1], p);
    }
  }

  lemma {:induction false} CountImplies<T>(s: seq<T>, p: T -> bool, q: T -> bool)
    requires forall x :: x in s && p(x) ==> q(x)
    ensures CountIf(s, p) <= CountIf(s, q)
  {
    if s != [] {
      CountImplies(s[..|s| - 1], p, q);
    }
  }

  /** Fewer elements, fewer that qualify. */
  lemma {:induction false} CountMonotone<T(!new)>(a: seq<T>, b: seq<T>, p: T -> bool)
    requires multiset(a) <= multiset(b)
    ensures CountIf(a, p) <= CountIf(b, p)
  {
    if a != [] {
      var t, x := a[..|a| - 1], a[|a| - 1];
      assert a == t + [x];
      assert x in multiset(a) && x in multiset(b);
      var i :| 0 <= i < |b| && b[i] == x;
      var l, r := b[..i], b[i + 1..];
      assert b == l + [x] + r;
      assert multiset(b) == multiset(l + r) + multiset{x};
      assert multiset(a) == multiset(t) + multiset{x};
      forall y ensures multiset(t)[y] <= multiset(l + r)[y] {
        assert multiset(a)[y] <= multiset(b)[y];
      }
      CountMonotone(t, l + r, p);
      CountConcat(l, r, p);
      CountConcat(l + [x], r, p);
      CountConcat(l, [x], p);
      CountConcat(t, [x], p);
    }
  }

  // ---------------------------------------------------------------- slices

  /** `s[:k]` for any integer `k`; a negative one counts from the end. */
  function Take<T>(s: seq<T>, k: int): (r: seq<T>)
    ensures r <= s
    ensures k >= 0 ==> |r| == if k < |s| then k else |s|
  {
    if k >= |s| then s else if k >= 0 then s[..k] else if |s| + k >= 0 then s[..|s| + k] else []
  }
}
