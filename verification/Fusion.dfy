/** Weighted reciprocal rank fusion, and what it can and cannot do to a ranking. */
module Fusion {
  import opened Options
  import opened Ordering

  const RRF_K := 60
  const SEMANTIC_WEIGHT := 0.8

  function Share(w: real, k: nat, rank: nat): real { w / (k + rank + 1) as real }

  /** What one order gives to a candidate, over all its occurrences. */
  function OrderScore(order: seq<nat>, w: real, k: nat, i: nat): real {
    if order == [] then 0.0
    else
      var r := |order| - 1;
      OrderScore(order[..r], w, k, i) + if order[r] == i then Share(w, k, r) else 0.0
  }

  function Score(orders: seq<seq<nat>>, weights: seq<real>, k: nat, i: nat): real
    requires |orders| == |weights|
  {
    if orders == [] then 0.0
    else
      var m := |orders| - 1;
      Score(orders[..m], weights[..m], k, i) + OrderScore(orders[m], weights[m], k, i)
  }

  /** Dictionary keys: each candidate where it was first met. */
  function Meet(keys: seq<nat>, order: seq<nat>): seq<nat> {
    if order == [] then keys
    else
      var r := |order| - 1;
      var seen := Meet(keys, order[..r]);
      if order[r] in seen then seen else seen + [order[r]]
  }

  function Met(orders: seq<seq<nat>>): seq<nat> {
    if orders == [] then [] else Meet(Met(orders[..|orders| - 1]), orders[|orders| - 1])
  }

  /** Missing weights are ones; the longer of the two lists is cut. */
  function Weighted(orders: seq<seq<nat>>, weights: Option<seq<real>>): (r: (seq<seq<nat>>, seq<real>))
    ensures |r.0| == |r.1|
  {
    var ws := if weights.Some? then weights.value else seq(|orders|, _ => 1.0);
    var m := if |orders| <= |ws| then |orders| else |ws|;
    (orders[..m], ws[..m])
  }

  function Fused(orders: seq<seq<nat>>, weights: seq<real>, k: nat): (f: seq<nat>)
    requires |orders| == |weights|
    ensures multiset(f) == multiset(Met(orders))
  {
    SortDescending(Met(orders), (i: nat) => Score(orders, weights, k, i))
  }

  function Held(score: map<nat, real>, i: nat): real { if i in score then score[i] else 0.0 }

  /** The score table after whole orders and the first part of one more. */
  ghost predicate Tallied(
    keys: seq<nat>, score: map<nat, real>, orders: seq<seq<nat>>, weights: seq<real>,
    part: seq<nat>, w: real, k: nat)
    requires |orders| == |weights|
  {
    && keys == Meet(Met(orders), part) && score.Keys == Elements(keys)
    && forall i :: Held(score, i) == Score(orders, weights, k, i) + OrderScore(part, w, k, i)
  }

  lemma NextShare(
    keys: seq<nat>, score: map<nat, real>, orders: seq<seq<nat>>, weights: seq<real>,
    part: seq<nat>, w: real, k: nat, i: nat)
    requires |orders| == |weights| && Tallied(keys, score, orders, weights, part, w, k)
    ensures Tallied(if i in score then keys else keys + [i], score[i := Held(score, i) + Share(w, k, |part|)],
                    orders, weights, part + [i], w, k)
  {
    assert (part + [i])[..|part|] == part;
    assert i in score <==> i in keys;
    var now := score[i := Held(score, i) + Share(w, k, |part|)];
    forall j ensures Held(now, j) == Score(orders, weights, k, j) + OrderScore(part + [i], w, k, j) {
      assert Held(score, j) == Score(orders, weights, k, j) + OrderScore(part, w, k, j);
    }
  }

  lemma NextOrder(
    keys: seq<nat>, score: map<nat, real>, orders: seq<seq<nat>>, weights: seq<real>,
    part: seq<nat>, w: real, k: nat, v: real)
    requires |orders| == |weights| && Tallied(keys, score, orders, weights, part, w, k)
    ensures Tallied(keys, score, orders + [part], weights + [w], [], v, k)
  {
    assert (orders + [part])[..|orders|] == orders && (weights + [w])[..|weights|] == weights;
    forall i ensures Held(score, i) == Score(orders + [part], weights + [w], k, i) + OrderScore([], v, k, i) {
      assert Held(score, i) == Score(orders, weights, k, i) + OrderScore(part, w, k, i);
    }
  }

  method Rrf(orders: seq<seq<nat>>, weights: Option<seq<real>>, k: nat) returns (fused: seq<nat>)
    ensures var (os, ws) := Weighted(orders, weights); fused == Fused(os, ws, k)
  {
    var ws := if weights.Some? then weights.value else seq(|orders|, _ => 1.0);
    var keys: seq<nat>, score: map<nat, real> := [], map[];
    var m := if |orders| <= |ws| then |orders| else |ws|;
    for o := 0 to m
      invariant Tallied(keys, score, orders[..o], ws[..o], [], 0.0, k)
    {
      var order, w := orders[o], ws[o];
      for rank := 0 to |order|
        invariant Tallied(keys, score, orders[..o], ws[..o], order[..rank], w, k)
      {
        var i := order[rank];
        NextShare(keys, score, orders[..o], ws[..o], order[..rank], w, k, i);
        assert order[..rank] + [i] == order[..rank + 1];
        keys := if i in score then keys else keys + [i];
        score := score[i := Held(score, i) + Share(w, k, rank)];
      }
      assert order[..|order|] == order;
      NextOrder(keys, score, orders[..o], ws[..o], order, w, k, 0.0);
      assert orders[..o] + [order] == orders[..o + 1] && ws[..o] + [w] == ws[..o + 1];
    }
    fused := SortDescending(keys, (i: nat) => Held(score, i));
    SortedByTotal(keys, score, orders[..m], ws[..m], k);
  }

  lemma SortedByTotal(keys: seq<nat>, score: map<nat, real>, orders: seq<seq<nat>>, weights: seq<real>, k: nat)
    requires |orders| == |weights| && Tallied(keys, score, orders, weights, [], 0.0, k)
    ensures SortDescending(keys, (i: nat) => Held(score, i)) == Fused(orders, weights, k)
  {
    DescendingSame(keys, (i: nat) => Held(score, i), (i: nat) => Score(orders, weights, k, i));
  }

  // ------------------------------------------------- two orders of the same candidates

  ghost predicate Rankings(sem: seq<nat>, bm: seq<nat>) {
    Distinct(sem) && multiset(bm) == multiset(sem)
  }

  lemma InBoth(sem: seq<nat>, bm: seq<nat>, i: nat)
    requires Rankings(sem, bm)
    ensures Distinct(bm) && (i in bm <==> i in sem)
  {
    PermutationDistinct(sem, bm);
    SameElements(sem, bm, i);
  }

  lemma {:induction false} DistinctScore(order: seq<nat>, w: real, k: nat, i: nat)
    requires Distinct(order)
    ensures OrderScore(order, w, k, i) == if i in order then Share(w, k, Position(order, i)) else 0.0
  {
    if order != [] {
      var r := |order| - 1;
      DistinctScore(order[..r], w, k, i);
      if i in order {
        var p := Position(order, i);
        assert p < r ==> order[..r][p] == i;
        assert i in order[..r] ==> Position(order[..r], i) == p;
      }
    }
  }

  lemma {:induction false} MeetDistinct(order: seq<nat>)
    requires Distinct(order)
    ensures Meet([], order) == order
  {
    if order != [] {
      MeetDistinct(order[..|order| - 1]);
    }
  }

  lemma {:induction false} MeetKnown(keys: seq<nat>, order: seq<nat>)
    requires forall i :: i in order ==> i in keys
    ensures Meet(keys, order) == keys
  {
    if order != [] {
      MeetKnown(keys, order[..|order| - 1]);
    }
  }

  /** The call of `hybrid_search`. */
  function Hybrid(sem: seq<nat>, bm: seq<nat>, w: real): seq<nat> {
    Fused([sem, bm], [w, 1.0 - w], RRF_K)
  }

  function Two(sem: seq<nat>, bm: seq<nat>, w: real, i: nat): real
    requires i in sem && i in bm
  {
    Share(w, RRF_K, Position(sem, i)) + Share(1.0 - w, RRF_K, Position(bm, i))
  }

  lemma MetBoth(sem: seq<nat>, bm: seq<nat>)
    requires Rankings(sem, bm)
    ensures Met([sem, bm]) == sem
  {
    forall i | i in bm ensures i in sem {
      InBoth(sem, bm, i);
    }
    MeetDistinct(sem);
    MeetKnown(sem, bm);
    assert [sem, bm][..1] == [sem] && [sem][..0] == [];
    assert Met([sem]) == Meet(Met([]), sem);
  }

  lemma ScoreBoth(sem: seq<nat>, bm: seq<nat>, w: real, i: nat)
    requires Rankings(sem, bm) && i in sem
    ensures i in bm && Score([sem, bm], [w, 1.0 - w], RRF_K, i) == Two(sem, bm, w, i)
  {
    InBoth(sem, bm, i);
    DistinctScore(sem, w, RRF_K, i);
    DistinctScore(bm, 1.0 - w, RRF_K, i);
    assert [sem, bm][..1] == [sem] && [sem][..0] == [];
    assert [w, 1.0 - w][..1] == [w] && [w][..0] == [];
    assert Score([sem], [w], RRF_K, i) == Score([], [], RRF_K, i) + OrderScore(sem, w, RRF_K, i);
  }

  /** Fusing reorders the candidates by score, ties in semantic order. */
  lemma FusedOrder(sem: seq<nat>, bm: seq<nat>, w: real, a: nat, b: nat)
    requires Rankings(sem, bm) && a in sem && b in sem && a != b
    ensures var f := Hybrid(sem, bm, w);
            && multiset(f) == multiset(sem) && Distinct(f) && a in f && b in f && a in bm && b in bm
            && (Position(f, a) < Position(f, b)
                <==> Two(sem, bm, w, a) > Two(sem, bm, w, b)
                     || (Two(sem, bm, w, a) == Two(sem, bm, w, b) && Position(sem, a) < Position(sem, b)))
  {
    MetBoth(sem, bm);
    ScoreBoth(sem, bm, w, a);
    ScoreBoth(sem, bm, w, b);
    DescendingPosition(sem, (i: nat) => Score([sem, bm], [w, 1.0 - w], RRF_K, i), a, b);
  }

  lemma FusedPermutes(sem: seq<nat>, bm: seq<nat>, w: real)
    requires Rankings(sem, bm)
    ensures multiset(Hybrid(sem, bm, w)) == multiset(sem) && Distinct(Hybrid(sem, bm, w))
    ensures |Hybrid(sem, bm, w)| == |sem| == |bm|
    ensures forall i :: i in Hybrid(sem, bm, w) <==> i in sem
  {
    MetBoth(sem, bm);
    var f := Hybrid(sem, bm, w);
    PermutationDistinct(sem, f);
    assert |multiset(f)| == |f| && |multiset(sem)| == |sem| && |multiset(bm)| == |bm|;
    forall i ensures i in f <==> i in sem {
      SameElements(sem, f, i);
    }
  }

  lemma ShareShrinks(w: real, k: nat, r: nat, q: nat)
    requires w >= 0.0 && r <= q
    ensures Share(w, k, r) >= Share(w, k, q) >= 0.0
  {
    var x, y := (k + r + 1) as real, (k + q + 1) as real;
    assert w / x - w / y == w * (y - x) / (x * y);
    assert w * (y - x) >= 0.0 && x * y > 0.0;
  }

  lemma TwoShrinks(sem: seq<nat>, bm: seq<nat>, w: real, a: nat, b: nat)
    requires 0.0 <= w <= 1.0 && a in sem && b in sem && a in bm && b in bm
    requires Position(sem, a) <= Position(sem, b) && Position(bm, a) <= Position(bm, b)
    ensures Two(sem, bm, w, a) >= Two(sem, bm, w, b)
  {
    ShareShrinks(w, RRF_K, Position(sem, a), Position(sem, b));
    ShareShrinks(1.0 - w, RRF_K, Position(bm, a), Position(bm, b));
  }

  /** A candidate ahead in both orders stays ahead. */
  lemma AheadInBothStaysAhead(sem: seq<nat>, bm: seq<nat>, w: real, a: nat, b: nat)
    requires Rankings(sem, bm) && 0.0 <= w <= 1.0
    requires a in sem && b in sem && a in bm && b in bm
    requires Position(sem, a) < Position(sem, b) && Position(bm, a) < Position(bm, b)
    ensures a in Hybrid(sem, bm, w) && b in Hybrid(sem, bm, w)
    ensures Position(Hybrid(sem, bm, w), a) < Position(Hybrid(sem, bm, w), b)
  {
    TwoShrinks(sem, bm, w, a, b);
    FusedOrder(sem, bm, w, a, b);
  }

  lemma SubsetSize<T>(s: set<T>, t: set<T>)
    requires s <= t
    ensures |s| <= |t|
  {
    assert t == s + (t - s);
  }

  lemma PrefixSize(s: seq<nat>, p: nat)
    requires Distinct(s) && p <= |s|
    ensures |Elements(s[..p])| == p
  {
    DistinctSize(s[..p]);
  }

  lemma InPrefix(s: seq<nat>, x: nat, p: nat)
    requires Distinct(s) && x in s && p <= |s|
    ensures x in Elements(s[..p]) <==> Position(s, x) < p
  {
    if Position(s, x) < p {
      assert s[..p][Position(s, x)] == x;
    }
  }

  /** What passes a candidate was ahead of it in one of the two orders. */
  lemma AheadSomewhere(sem: seq<nat>, bm: seq<nat>, w: real, x: nat, y: nat)
    requires Rankings(sem, bm) && 0.0 <= w <= 1.0
    requires x in sem && x in bm && x in Hybrid(sem, bm, w) && y in Hybrid(sem, bm, w)
    requires Position(Hybrid(sem, bm, w), y) < Position(Hybrid(sem, bm, w), x)
    ensures y in Elements(sem[..Position(sem, x)]) || y in Elements(bm[..Position(bm, x)])
  {
    FusedPermutes(sem, bm, w);
    InBoth(sem, bm, y);
    InPrefix(sem, y, Position(sem, x));
    InPrefix(bm, y, Position(bm, x));
    if Position(sem, x) <= Position(sem, y) && Position(bm, x) <= Position(bm, y) {
      assert y != x;
      AheadInBothStaysAhead(sem, bm, w, x, y);
    }
  }

  /** No candidate falls below the sum of its two ranks. */
  lemma FusedRankAtMostSum(sem: seq<nat>, bm: seq<nat>, w: real, x: nat)
    requires Rankings(sem, bm) && 0.0 <= w <= 1.0 && x in sem
    ensures x in bm && x in Hybrid(sem, bm, w)
    ensures Position(Hybrid(sem, bm, w), x) <= Position(sem, x) + Position(bm, x)
  {
    var f := Hybrid(sem, bm, w);
    FusedPermutes(sem, bm, w);
    InBoth(sem, bm, x);
    var p, s, t := Position(f, x), Position(sem, x), Position(bm, x);
    var above, left, right := Elements(f[..p]), Elements(sem[..s]), Elements(bm[..t]);
    forall y | y in above ensures y in left + right {
      InPrefix(f, y, p);
      AheadSomewhere(sem, bm, w, x, y);
    }
    SubsetSize(above, left + right);
    PrefixSize(f, p);
    PrefixSize(sem, s);
    PrefixSize(bm, t);
  }

  // ---------------------------------------------------------------- the shipped weights

  lemma WinnerMargin(r: nat, b: nat, c: nat)
    requires r >= 21
    ensures Share(SEMANTIC_WEIGHT, RRF_K, r) + Share(1.0 - SEMANTIC_WEIGHT, RRF_K, b)
            < Share(SEMANTIC_WEIGHT, RRF_K, 0) + Share(1.0 - SEMANTIC_WEIGHT, RRF_K, c)
  {
    ShareShrinks(SEMANTIC_WEIGHT, RRF_K, 21, r);
    ShareShrinks(1.0 - SEMANTIC_WEIGHT, RRF_K, 0, b);
    ShareShrinks(1.0 - SEMANTIC_WEIGHT, RRF_K, c, c);
  }

  /** With the shipped constants nothing at semantic rank 21 or worse passes the semantic
      winner, whatever BM25 says. */
  lemma WinnerBeatsTheTail(sem: seq<nat>, bm: seq<nat>, x: nat)
    requires Rankings(sem, bm) && sem != [] && x in sem && Position(sem, x) >= 21
    ensures sem[0] in Hybrid(sem, bm, SEMANTIC_WEIGHT) && x in Hybrid(sem, bm, SEMANTIC_WEIGHT)
    ensures Position(Hybrid(sem, bm, SEMANTIC_WEIGHT), sem[0]) < Position(Hybrid(sem, bm, SEMANTIC_WEIGHT), x)
  {
    assert Position(sem, sem[0]) == 0;
    InBoth(sem, bm, x);
    InBoth(sem, bm, sem[0]);
    WinnerMargin(Position(sem, x), Position(bm, x), Position(bm, sem[0]));
    FusedOrder(sem, bm, SEMANTIC_WEIGHT, sem[0], x);
  }

  /** So the semantic winner keeps one of the first 21 places. */
  lemma WinnerInTop21(sem: seq<nat>, bm: seq<nat>)
    requires Rankings(sem, bm) && sem != []
    ensures sem[0] in Hybrid(sem, bm, SEMANTIC_WEIGHT)
    ensures Position(Hybrid(sem, bm, SEMANTIC_WEIGHT), sem[0]) <= 20
  {
    var f := Hybrid(sem, bm, SEMANTIC_WEIGHT);
    FusedPermutes(sem, bm, SEMANTIC_WEIGHT);
    var p := Position(f, sem[0]);
    var n := if |sem| < 21 then |sem| else 21;
    var above, head := Elements(f[..p]), Elements(sem[..n]);
    forall y | y in above ensures y in head - {sem[0]} {
      assert y in f;
      InPrefix(f, y, p);
      InPrefix(sem, y, n);
      if Position(sem, y) >= 21 {
        WinnerBeatsTheTail(sem, bm, y);
      }
    }
    assert sem[..n][0] == sem[0];
    SubsetSize(above, head - {sem[0]});
    PrefixSize(f, p);
    PrefixSize(sem, n);
  }

  /** This lexical order puts the candidate before the semantic winner. */
  ghost predicate PassesWinner(sem: seq<nat>, bm: seq<nat>, x: nat) {
    var f := Hybrid(sem, bm, SEMANTIC_WEIGHT);
    && Rankings(sem, bm) && sem != [] && sem[0] in f && x in f
    && Position(f, x) < Position(f, sem[0])
  }

  lemma CrossMultiply(a: real, b: real, c: real, d: real)
    requires b > 0.0 && d > 0.0
    ensures a / b > c / d <==> a * d > c * b
  {
    var x, y, e := a / b, c / d, b * d;
    assert x * b == a && y * d == c && e > 0.0;
    assert x * e == a * d && y * e == c * b;
    if x > y {
      assert (x - y) * e > 0.0;
    } else {
      assert (y - x) * e >= 0.0;
    }
  }

  lemma ShareGap(w: real, a: nat, b: nat)
    ensures Share(w, RRF_K, a) - Share(w, RRF_K, b)
            == w * (b as real - a as real) / ((61 + a) as real * (61 + b) as real)
  {
    var x, y := (61 + a) as real, (61 + b) as real;
    assert w / x - w / y == w * (y - x) / (x * y);
  }

  /** The largest score of rank `r` exceeds the least score of the winner among `n`. */
  lemma BestAgainstWorst(r: nat, n: nat)
    requires 0 < r < n
    ensures Share(SEMANTIC_WEIGHT, RRF_K, r) + Share(1.0 - SEMANTIC_WEIGHT, RRF_K, 0)
            > Share(SEMANTIC_WEIGHT, RRF_K, 0) + Share(1.0 - SEMANTIC_WEIGHT, RRF_K, n - 1)
            <==> 241 * r + 61 < n * (61 - 3 * r)
  {
    ShareGap(1.0 - SEMANTIC_WEIGHT, 0, n - 1);
    ShareGap(SEMANTIC_WEIGHT, 0, r);
    var gain, loss := (1.0 - SEMANTIC_WEIGHT) * (n - 1) as real, SEMANTIC_WEIGHT * r as real;
    var x, y := 61.0 * (60 + n) as real, 61.0 * (61 + r) as real;
    CrossMultiply(gain, x, loss, y);
    CrossedGaps(r, n);
  }

  lemma CrossedGaps(r: nat, n: nat)
    requires 0 < r < n
    ensures (1.0 - SEMANTIC_WEIGHT) * (n - 1) as real * (61.0 * (61 + r) as real)
            > SEMANTIC_WEIGHT * r as real * (61.0 * (60 + n) as real)
            <==> 241 * r + 61 < n * (61 - 3 * r)
  {
    var a, b := (n - 1) * (61 + r), r * (60 + n);
    assert a - 4 * b == n * (61 - 3 * r) - 61 - 241 * r;
    var x, y := (n - 1) as real * (61 + r) as real, r as real * (60 + n) as real;
    assert x == a as real && y == b as real;
    assert (1.0 - SEMANTIC_WEIGHT) * (n - 1) as real * (61.0 * (61 + r) as real) == 12.2 * x;
    assert SEMANTIC_WEIGHT * r as real * (61.0 * (60 + n) as real) == 12.2 * (4.0 * y);
  }

  /** The lexical order that helps a candidate most: it first, the semantic winner last. */
  function Upset(sem: seq<nat>, r: nat): seq<nat>
    requires 0 < r < |sem|
  {
    [sem[r]] + sem[1..r] + sem[r + 1..] + [sem[0]]
  }

  lemma UpsetRanks(sem: seq<nat>, r: nat)
    requires 0 < r < |sem| && Distinct(sem)
    ensures Rankings(sem, Upset(sem, r)) && sem[r] in Upset(sem, r) && sem[0] in Upset(sem, r)
    ensures Position(Upset(sem, r), sem[r]) == 0 && Position(Upset(sem, r), sem[0]) == |sem| - 1
  {
    var bm := Upset(sem, r);
    assert sem == [sem[0]] + sem[1..r] + [sem[r]] + sem[r + 1..];
    assert multiset(bm) == multiset(sem);
    PermutationDistinct(sem, bm);
    assert bm[0] == sem[r] && bm[|sem| - 1] == sem[0];
  }

  /** Passing the winner is having the greater score. */
  lemma PassingIsMore(sem: seq<nat>, bm: seq<nat>, r: nat)
    requires 0 < r < |sem| && Rankings(sem, bm)
    ensures sem[r] in bm && sem[0] in bm && Position(bm, sem[0]) < |sem|
    ensures PassesWinner(sem, bm, sem[r]) <==>
            Share(SEMANTIC_WEIGHT, RRF_K, r) + Share(1.0 - SEMANTIC_WEIGHT, RRF_K, Position(bm, sem[r]))
            > Share(SEMANTIC_WEIGHT, RRF_K, 0) + Share(1.0 - SEMANTIC_WEIGHT, RRF_K, Position(bm, sem[0]))
  {
    assert Position(sem, sem[r]) == r && Position(sem, sem[0]) == 0;
    FusedPermutes(sem, bm, SEMANTIC_WEIGHT);
    FusedOrder(sem, bm, SEMANTIC_WEIGHT, sem[r], sem[0]);
  }

  lemma UpsetPasses(sem: seq<nat>, r: nat)
    requires 0 < r < |sem| && Distinct(sem) && 241 * r + 61 < |sem| * (61 - 3 * r)
    ensures PassesWinner(sem, Upset(sem, r), sem[r])
  {
    UpsetRanks(sem, r);
    PassingIsMore(sem, Upset(sem, r), r);
    BestAgainstWorst(r, |sem|);
  }

  lemma MarginNeeded(r: nat, n: nat, b: nat, c: nat)
    requires 0 < r < n && c < n
    requires Share(SEMANTIC_WEIGHT, RRF_K, r) + Share(1.0 - SEMANTIC_WEIGHT, RRF_K, b)
             > Share(SEMANTIC_WEIGHT, RRF_K, 0) + Share(1.0 - SEMANTIC_WEIGHT, RRF_K, c)
    ensures 241 * r + 61 < n * (61 - 3 * r)
  {
    ShareShrinks(1.0 - SEMANTIC_WEIGHT, RRF_K, 0, b);
    ShareShrinks(1.0 - SEMANTIC_WEIGHT, RRF_K, c, n - 1);
    BestAgainstWorst(r, n);
  }

  lemma PassingNeedsMargin(sem: seq<nat>, bm: seq<nat>, r: nat)
    requires 0 < r < |sem| && PassesWinner(sem, bm, sem[r])
    ensures 241 * r + 61 < |sem| * (61 - 3 * r)
  {
    PassingIsMore(sem, bm, r);
    MarginNeeded(r, |sem|, Position(bm, sem[r]), Position(bm, sem[0]));
  }

  /** Some lexical order puts the candidate of semantic rank `r` before the semantic winner
      exactly when there are enough candidates for that rank: six for rank 1, 4882 for rank
      20, and no number is enough from rank 21 on. */
  lemma CanPassExactlyWhen(sem: seq<nat>, r: nat)
    requires Distinct(sem) && 0 < r < |sem|
    ensures (exists bm :: PassesWinner(sem, bm, sem[r])) <==> 241 * r + 61 < |sem| * (61 - 3 * r)
    ensures r == 20 ==> ((exists bm :: PassesWinner(sem, bm, sem[r])) <==> |sem| >= 4882)
  {
    if 241 * r + 61 < |sem| * (61 - 3 * r) {
      UpsetPasses(sem, r);
    } else {
      forall bm ensures !PassesWinner(sem, bm, sem[r]) {
        if PassesWinner(sem, bm, sem[r]) {
          PassingNeedsMargin(sem, bm, r);
        }
      }
    }
  }
}
