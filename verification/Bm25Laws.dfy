/** BM25 scores in numbers: what a term weighs, what a document scores, and which of two
    documents scores more. */
module Bm25Laws {
  import opened Bm25

  /** The number of documents that hold a term. */
  function Held(toks: Docs, w: string): nat { |Holders(toks, w)| }

  lemma HeldBounds(toks: Docs, w: string)
    ensures Held(toks, w) == DocFreq(toks, w) <= |toks|
    ensures Held(toks, w) > 0 <==> w in Vocabulary(toks)
  {
    DocFreqCounts(toks, w);
    DocFreqBounds(toks, w);
  }

  lemma OneQuotient(n: nat, h: nat)
    ensures 1.0 + (n as real - h as real + 0.5) / (h as real + 0.5) == (n as real + 1.0) / (h as real + 0.5)
  {
    var d := h as real + 0.5;
    assert d / d == 1.0;
    assert d / d + (n as real - h as real + 0.5) / d == (d + (n as real - h as real + 0.5)) / d;
  }

  /** A term held by h of n documents weighs ln((n + 1) / (h + 0.5)). */
  lemma TermWeight(ln: real -> real, toks: Docs, w: string)
    requires Held(toks, w) > 0
    ensures var x, n, h := BuildIndex(ln, toks), |toks| as real, Held(toks, w);
            && w in x.idf && x.idf[w] == ln((n + 1.0) / (h as real + 0.5))
            && (h == |toks| ==> x.idf[w] == ln(1.0 + 0.5 / (n + 0.5)))
            && (h == 1 ==> x.idf[w] == ln(1.0 + (n - 0.5) / 1.5))
  {
    HeldBounds(toks, w);
    OneQuotient(|toks|, Held(toks, w));
  }

  lemma SmallerDivisor(a: real, b: real, c: real)
    requires a > 0.0 && 0.0 < b < c
    ensures 0.0 < a / c < a / b
  {
    var x, y := a / b, a / c;
    assert x * b == a && y * c == a;
    assert x * b > 0.0 && y * c > 0.0;
    assert y * (c - b) > 0.0;
    assert (x - y) * b == y * (c - b);
  }

  /** Of two terms of the vocabulary the one held by fewer documents weighs strictly more. */
  lemma RarerTermWeighsMore(ln: real -> real, toks: Docs, u: string, w: string)
    requires LogLike(ln) && 0 < Held(toks, u) < Held(toks, w)
    ensures var x := BuildIndex(ln, toks); u in x.idf && w in x.idf && x.idf[u] > x.idf[w]
  {
    TermWeight(ln, toks, u);
    TermWeight(ln, toks, w);
    SmallerDivisor(|toks| as real + 1.0, Held(toks, u) as real + 0.5, Held(toks, w) as real + 0.5);
  }

  // ---------------------------------------------------------------- one token

  function Average(toks: Docs): real
    requires toks != []
  {
    TotalLength(toks) as real / |toks| as real
  }

  /** What a token adds that weighs `weight`, occurs `f` times, in a document whose length
      counts as `norm`. */
  function Gain(weight: real, f: real, norm: real): real
    requires f + norm > 0.0
  {
    weight * (f * 2.5) / (f + norm)
  }

  /** A document of average length counts as 1.5. */
  function LengthNorm(dl: nat, average: real): (norm: real)
    requires average > 0.0
    ensures norm > 0.0
  {
    assert 0.75 * dl as real / average >= 0.0;
    1.5 * (0.25 + 0.75 * dl as real / average)
  }

  function Rarity(ln: real -> real, n: nat, h: nat): real { ln((n as real + 1.0) / (h as real + 0.5)) }

  lemma HolderHasTokens(toks: Docs, i: nat, w: string)
    requires i < |toks| && w in toks[i]
    ensures TotalLength(toks) > 0 && Average(toks) > 0.0 && Held(toks, w) > 0 && Count(toks[i], w) > 0
  {
    if TotalLength(toks) == 0 {
      EmptyDocs(toks, i);
    }
    assert i in Holders(toks, w);
    CountPositive(toks[i], w);
  }

  lemma TermIsGain(idf: real, f: nat, dl: nat, average: real)
    requires f > 0 && average > 0.0
    ensures Term(idf, f, K1, Norm(K1, B, dl, average)) == Gain(idf, f as real, LengthNorm(dl, average))
  {
  }

  lemma ScoreOfOne(ln: real -> real, toks: Docs, i: nat, w: string)
    requires i < |toks|
    ensures Scorable(BuildIndex(ln, toks))
    ensures TotalLength(toks) > 0 ==> Scores(BuildIndex(ln, toks), [w])[i] == FormulaTerm(ln, toks, i, w)
    ensures TotalLength(toks) == 0 ==> Scores(BuildIndex(ln, toks), [w])[i] == 0.0
  {
    BuildScorable(ln, toks);
    if TotalLength(toks) > 0 {
      ScoreDocIsFormula(ln, toks, i, [w]);
      assert [w][..0] == [];
    }
  }

  lemma TokenScore(ln: real -> real, toks: Docs, i: nat, w: string)
    requires i < |toks| && w in toks[i]
    ensures Scorable(BuildIndex(ln, toks)) && Average(toks) > 0.0 && Count(toks[i], w) > 0
    ensures Scores(BuildIndex(ln, toks), [w])[i]
            == Gain(Rarity(ln, |toks|, Held(toks, w)), Count(toks[i], w) as real,
                    LengthNorm(|toks[i]|, Average(toks)))
  {
    HolderHasTokens(toks, i, w);
    ScoreOfOne(ln, toks, i, w);
    HeldBounds(toks, w);
    OneQuotient(|toks|, Held(toks, w));
    TermIsGain(Idf(ln, |toks|, DocFreq(toks, w)), Count(toks[i], w), |toks[i]|, Average(toks));
  }

  lemma AbsentToken(ln: real -> real, toks: Docs, i: nat, w: string)
    requires i < |toks| && w !in toks[i]
    ensures Scorable(BuildIndex(ln, toks)) && Scores(BuildIndex(ln, toks), [w])[i] == 0.0
  {
    ScoreOfOne(ln, toks, i, w);
    CountPositive(toks[i], w);
  }

  /** The score of document `i` for one token, in numbers: nothing when it does not hold the
      token, otherwise ln((n + 1) / (h + 0.5)) 2.5 f / (f + 1.5 (0.25 + 0.75 l / a)) for f
      occurrences in l of on average a tokens, and h holders among n documents. */
  lemma OneTokenScore(ln: real -> real, toks: Docs, i: nat, w: string)
    requires i < |toks|
    ensures Scorable(BuildIndex(ln, toks))
    ensures w !in toks[i] ==> Scores(BuildIndex(ln, toks), [w])[i] == 0.0
    ensures w in toks[i] ==>
              && Average(toks) > 0.0 && Count(toks[i], w) > 0
              && Scores(BuildIndex(ln, toks), [w])[i]
                 == Gain(ln((|toks| as real + 1.0) / (Held(toks, w) as real + 0.5)),
                         Count(toks[i], w) as real, LengthNorm(|toks[i]|, Average(toks)))
  {
    if w in toks[i] {
      TokenScore(ln, toks, i, w);
    } else {
      AbsentToken(ln, toks, i, w);
    }
  }

  // ---------------------------------------------------------------- many tokens

  lemma {:induction false} ScoreDocAdds(x: Index, i: nat, p: seq<string>, q: seq<string>)
    requires Scorable(x) && x.avgdl > 0.0 && i < x.n
    ensures ScoreDoc(x, i, p + q) == ScoreDoc(x, i, p) + ScoreDoc(x, i, q)
  {
    if q == [] {
      assert p + q == p;
    } else {
      assert (p + q)[..|p + q| - 1] == p + q[..|q| - 1];
      ScoreDocAdds(x, i, p, q[..|q| - 1]);
    }
  }

  /** Scores add up over the tokens of a query, so the scores of single tokens give them all. */
  lemma ScoresAdd(x: Index, i: nat, p: seq<string>, q: seq<string>)
    requires Scorable(x) && i < x.n
    ensures Scores(x, p + q)[i] == Scores(x, p)[i] + Scores(x, q)[i]
  {
    if x.avgdl > 0.0 {
      ScoreDocAdds(x, i, p, q);
    }
  }

  /** No token of the query but `w` is in the document. */
  predicate OnlyShares(d: seq<string>, q: seq<string>, w: string) {
    forall k :: 0 <= k < |q| && q[k] in d ==> q[k] == w
  }

  function Times(c: nat, x: real): real { if c == 0 then 0.0 else Times(c - 1, x) + x }

  lemma {:induction false} TimesIs(c: nat, x: real)
    ensures Times(c, x) == c as real * x
  {
    if c > 0 {
      TimesIs(c - 1, x);
      assert c as real * x == (c - 1) as real * x + x;
    }
  }

  lemma {:induction false} RepeatedToken(ln: real -> real, toks: Docs, i: nat, q: seq<string>, w: string)
    requires i < |toks| && OnlyShares(toks[i], q, w) && Scorable(BuildIndex(ln, toks))
    ensures Scores(BuildIndex(ln, toks), q)[i] == Times(Count(q, w), Scores(BuildIndex(ln, toks), [w])[i])
  {
    if q != [] {
      var p, last := q[..|q| - 1], q[|q| - 1];
      assert forall k :: 0 <= k < |p| ==> p[k] == q[k];
      RepeatedToken(ln, toks, i, p, w);
      assert q == p + [last];
      ScoresAdd(BuildIndex(ln, toks), i, p, [last]);
      if last != w {
        AbsentToken(ln, toks, i, last);
      }
    }
  }

  // ---------------------------------------------------------------- which scores more

  lemma LargerWeight(a: real, b: real, f: real, norm: real)
    requires a > b && f > 0.0 && norm > 0.0
    ensures Gain(a, f, norm) > Gain(b, f, norm)
  {
    var r := f * 2.5 / (f + norm);
    assert r > 0.0;
    assert a * (f * 2.5) / (f + norm) == a * r && b * (f * 2.5) / (f + norm) == b * r;
    assert (a - b) * r > 0.0;
  }

  lemma RarityOrder(ln: real -> real, n: nat, h: nat, k: nat)
    requires LogLike(ln) && h < k <= n
    ensures Rarity(ln, n, h) > Rarity(ln, n, k) > 0.0
  {
    SmallerDivisor(n as real + 1.0, h as real + 0.5, k as real + 0.5);
    RarityPositive(ln, n, k);
  }

  lemma RarityPositive(ln: real -> real, n: nat, k: nat)
    requires LogLike(ln) && k <= n
    ensures Rarity(ln, n, k) > 0.0
  {
    var a, b := n as real + 1.0, k as real + 0.5;
    var x := a / b;
    assert x * b == a;
    assert (x - 1.0) * b > 0.0;
  }

  lemma RarerTokenScoresMore(ln: real -> real, toks: Docs, i: nat, j: nat, u: string, w: string)
    requires LogLike(ln) && i < |toks| && j < |toks| && |toks[i]| == |toks[j]|
    requires u in toks[i] && w in toks[j] && Count(toks[i], u) == Count(toks[j], w)
    requires Held(toks, u) < Held(toks, w)
    ensures Scorable(BuildIndex(ln, toks))
    ensures Scores(BuildIndex(ln, toks), [u])[i] > Scores(BuildIndex(ln, toks), [w])[j]
  {
    TokenScore(ln, toks, i, u);
    TokenScore(ln, toks, j, w);
    HeldBounds(toks, w);
    RarityOrder(ln, |toks|, Held(toks, u), Held(toks, w));
    LargerWeight(Rarity(ln, |toks|, Held(toks, u)), Rarity(ln, |toks|, Held(toks, w)),
                 Count(toks[i], u) as real, LengthNorm(|toks[i]|, Average(toks)));
  }

  lemma PositiveToken(ln: real -> real, toks: Docs, i: nat, w: string)
    requires LogLike(ln) && i < |toks| && w in toks[i]
    ensures Scorable(BuildIndex(ln, toks)) && Scores(BuildIndex(ln, toks), [w])[i] > 0.0
  {
    assert [w][0] in toks[i];
    ScoresAreTheFormula(ln, toks, [w], i);
  }

  lemma MoreTimes(c: nat, m: nat, a: real, b: real)
    requires c >= m > 0 && a > b && a > 0.0
    ensures Times(c, a) > Times(m, b)
  {
    TimesIs(c, a);
    TimesIs(m, b);
    assert c as real * a - m as real * a == (c - m) as real * a;
    assert (c - m) as real * a >= 0.0;
    assert m as real * a - m as real * b == m as real * (a - b);
    assert m as real * (a - b) > 0.0;
  }

  /** Of two documents of one length, each with one of the query terms, equally often, the one
      with the rarer term scores strictly more, unless the query repeats the other more. */
  lemma RarerScoresMore(ln: real -> real, toks: Docs, q: seq<string>, i: nat, j: nat, u: string, w: string)
    requires LogLike(ln) && i < |toks| && j < |toks| && |toks[i]| == |toks[j]|
    requires u in toks[i] && OnlyShares(toks[i], q, u) && w in toks[j] && OnlyShares(toks[j], q, w)
    requires Count(toks[i], u) == Count(toks[j], w) && Count(q, u) >= Count(q, w) > 0
    requires Held(toks, u) < Held(toks, w)
    ensures Scorable(BuildIndex(ln, toks))
    ensures Scores(BuildIndex(ln, toks), q)[i] > Scores(BuildIndex(ln, toks), q)[j]
  {
    PositiveToken(ln, toks, i, u);
    RepeatedToken(ln, toks, i, q, u);
    RepeatedToken(ln, toks, j, q, w);
    RarerTokenScoresMore(ln, toks, i, j, u, w);
    MoreTimes(Count(q, u), Count(q, w), Scores(BuildIndex(ln, toks), [u])[i], Scores(BuildIndex(ln, toks), [w])[j]);
  }

  lemma MoreIsMore(weight: real, f: real, g: real, norm: real)
    requires weight > 0.0 && 0.0 < g < f && norm > 0.0
    ensures Gain(weight, f, norm) > Gain(weight, g, norm)
  {
    var x, y := f / (f + norm), g / (g + norm);
    assert x * (f + norm) == f && y * (g + norm) == g;
    var c := (f + norm) * (g + norm);
    assert c > 0.0;
    assert x * c == f * (g + norm) && y * c == g * (f + norm);
    assert (x - y) * c == norm * (f - g);
    assert norm * (f - g) > 0.0;
    assert x > y;
    assert Gain(weight, f, norm) == 2.5 * weight * x && Gain(weight, g, norm) == 2.5 * weight * y;
    assert 2.5 * weight * (x - y) > 0.0;
  }

  /** Of two documents of one length the one that holds the token more often scores more. */
  lemma MoreOccurrencesScoreMore(ln: real -> real, toks: Docs, i: nat, j: nat, w: string)
    requires LogLike(ln) && i < |toks| && j < |toks| && |toks[i]| == |toks[j]|
    requires Count(toks[i], w) > Count(toks[j], w) > 0
    ensures Scorable(BuildIndex(ln, toks))
    ensures Scores(BuildIndex(ln, toks), [w])[i] > Scores(BuildIndex(ln, toks), [w])[j]
  {
    CountPositive(toks[i], w);
    CountPositive(toks[j], w);
    TokenScore(ln, toks, i, w);
    TokenScore(ln, toks, j, w);
    HeldBounds(toks, w);
    RarityPositive(ln, |toks|, Held(toks, w));
    MoreIsMore(Rarity(ln, |toks|, Held(toks, w)), Count(toks[i], w) as real, Count(toks[j], w) as real,
               LengthNorm(|toks[i]|, Average(toks)));
  }

  lemma NormGrows(a: nat, b: nat, average: real)
    requires a < b && average > 0.0
    ensures LengthNorm(a, average) < LengthNorm(b, average)
  {
    var x, y := 0.75 * a as real, 0.75 * b as real;
    assert y / average - x / average == (y - x) / average;
    assert (y - x) / average > 0.0;
  }

  lemma LongerIsLess(weight: real, f: real, norm: real, other: real)
    requires weight > 0.0 && f > 0.0 && 0.0 < norm < other
    ensures Gain(weight, f, norm) > Gain(weight, f, other)
  {
    assert weight * (f * 2.5) > 0.0;
    SmallerDivisor(weight * (f * 2.5), f + norm, f + other);
  }

  /** Of two documents that hold the token equally often the shorter one scores more. */
  lemma ShorterScoresMore(ln: real -> real, toks: Docs, i: nat, j: nat, w: string)
    requires LogLike(ln) && i < |toks| && j < |toks| && |toks[i]| < |toks[j]|
    requires Count(toks[i], w) == Count(toks[j], w) > 0
    ensures Scorable(BuildIndex(ln, toks))
    ensures Scores(BuildIndex(ln, toks), [w])[i] > Scores(BuildIndex(ln, toks), [w])[j]
  {
    CountPositive(toks[i], w);
    CountPositive(toks[j], w);
    TokenScore(ln, toks, i, w);
    TokenScore(ln, toks, j, w);
    HeldBounds(toks, w);
    RarityPositive(ln, |toks|, Held(toks, w));
    NormGrows(|toks[i]|, |toks[j]|, Average(toks));
    LongerIsLess(Rarity(ln, |toks|, Held(toks, w)), Count(toks[i], w) as real,
                 LengthNorm(|toks[i]|, Average(toks)), LengthNorm(|toks[j]|, Average(toks)));
  }
}
