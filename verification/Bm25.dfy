/** The BM25 index: building it, scoring with it, and why its scores are the formula. */
module Bm25 {
  import opened Options
  import opened Tokens

  const K1 := 1.5
  const B := 0.75

  /** The natural logarithm, through the facts the scores rest on. */
  ghost predicate LogLike(ln: real -> real) {
    ln(1.0) == 0.0 && forall x: real, y: real :: 0.0 < x < y ==> ln(x) < ln(y)
  }

  /** The scoring state: what `to_dict` saves and `from_dict` restores. */
  datatype Index = Index(
    k1: real, b: real, n: nat, avgdl: real,
    idf: map<string, real>, tf: seq<map<string, nat>>, doclen: seq<nat>)

  type Docs = seq<seq<string>>

  // ---------------------------------------------------------------- counting

  function Count(d: seq<string>, w: string): nat {
    if d == [] then 0 else Count(d[..|d| - 1], w) + if d[|d| - 1] == w then 1 else 0
  }

  function SetOf(d: seq<string>): set<string> { set w | w in d }

  function Counter(d: seq<string>): map<string, nat> {
    map w | w in SetOf(d) :: Count(d, w)
  }

  function TotalLength(toks: Docs): nat {
    if toks == [] then 0 else TotalLength(toks[..|toks| - 1]) + |toks[|toks| - 1]|
  }

  /** The number of documents that hold a term. */
  function DocFreq(toks: Docs, w: string): nat {
    if toks == [] then 0
    else DocFreq(toks[..|toks| - 1], w) + if w in toks[|toks| - 1] then 1 else 0
  }

  function Vocabulary(toks: Docs): set<string> {
    if toks == [] then {} else Vocabulary(toks[..|toks| - 1]) + SetOf(toks[|toks| - 1])
  }

  lemma {:induction false} CountPositive(d: seq<string>, w: string)
    ensures Count(d, w) > 0 <==> w in d
    ensures Count(d, w) <= |d|
  {
    if d != [] {
      CountPositive(d[..|d| - 1], w);
      assert d == d[..|d| - 1] + [d[|d| - 1]];
    }
  }

  lemma {:induction false} DocFreqBounds(toks: Docs, w: string)
    ensures DocFreq(toks, w) <= |toks|
    ensures DocFreq(toks, w) > 0 <==> w in Vocabulary(toks)
  {
    if toks != [] {
      DocFreqBounds(toks[..|toks| - 1], w);
    }
  }

  lemma {:induction false} VocabularyHolds(toks: Docs, i: nat, w: string)
    requires i < |toks| && w in toks[i]
    ensures w in Vocabulary(toks)
  {
    if i < |toks| - 1 {
      VocabularyHolds(toks[..|toks| - 1], i, w);
    }
  }

  function Holders(toks: Docs, w: string): set<nat> {
    set i | 0 <= i < |toks| && w in toks[i]
  }

  /** The document frequency is the size of the set of documents that hold the term. */
  lemma {:induction false} DocFreqCounts(toks: Docs, w: string)
    ensures DocFreq(toks, w) == |Holders(toks, w)|
  {
    if toks == [] {
      assert Holders(toks, w) == {};
    } else {
      var m := |toks| - 1;
      DocFreqCounts(toks[..m], w);
      assert Holders(toks, w) == Holders(toks[..m], w) + if w in toks[m] then {m} else {};
    }
  }

  // ---------------------------------------------------------------- sums over a set

  ghost function SumOver(s: set<string>, f: string -> nat): nat {
    if s == {} then 0 else
      var w :| w in s;
      f(w) + SumOver(s - {w}, f)
  }

  lemma {:induction false} SumOverTake(s: set<string>, f: string -> nat, x: string)
    requires x in s
    ensures SumOver(s, f) == f(x) + SumOver(s - {x}, f)
    decreases |s|
  {
    var w :| w in s && SumOver(s, f) == f(w) + SumOver(s - {w}, f);
    if w != x {
      SumOverTake(s - {w}, f, x);
      SumOverTake(s - {x}, f, w);
      assert s - {w} - {x} == s - {x} - {w};
    }
  }

  lemma {:induction false} SumOverSame(s: set<string>, f: string -> nat, g: string -> nat)
    requires forall w :: w in s ==> f(w) == g(w)
    ensures SumOver(s, f) == SumOver(s, g)
    decreases |s|
  {
    if s != {} {
      var w :| w in s && SumOver(s, f) == f(w) + SumOver(s - {w}, f);
      SumOverSame(s - {w}, f, g);
      SumOverTake(s, g, w);
    }
  }

  lemma {:induction false} SumOverZero(s: set<string>, f: string -> nat)
    requires forall w :: w in s ==> f(w) == 0
    ensures SumOver(s, f) == 0
    decreases |s|
  {
    if s != {} {
      var w :| w in s && SumOver(s, f) == f(w) + SumOver(s - {w}, f);
      SumOverZero(s - {w}, f);
    }
  }

  /** The term counts of a document sum to its length. */
  lemma {:induction false} CountsSumToLength(d: seq<string>, s: set<string>)
    requires SetOf(d) <= s
    ensures SumOver(s, w => Count(d, w)) == |d|
  {
    if d == [] {
      SumOverZero(s, w => Count(d, w));
    } else {
      var p, x := d[..|d| - 1], d[|d| - 1];
      assert x in SetOf(d);
      CountsSumToLength(p, s);
      SumOverTake(s, w => Count(d, w), x);
      SumOverTake(s, w => Count(p, w), x);
      SumOverSame(s - {x}, w => Count(d, w), w => Count(p, w));
    }
  }

  // ---------------------------------------------------------------- the index

  function Idf(ln: real -> real, n: nat, f: nat): real {
    ln(1.0 + (n as real - f as real + 0.5) / (f as real + 0.5))
  }

  function BuildIndex(ln: real -> real, toks: Docs): (x: Index)
    ensures x.n == |toks| == |x.tf| == |x.doclen|
  {
    Index(K1, B, |toks|,
          if |toks| == 0 then 0.0 else TotalLength(toks) as real / |toks| as real,
          map w | w in Vocabulary(toks) :: Idf(ln, |toks|, DocFreq(toks, w)),
          seq(|toks|, i requires 0 <= i < |toks| => Counter(toks[i])),
          seq(|toks|, i requires 0 <= i < |toks| => |toks[i]|))
  }

  function Prepare(docs: seq<Option<string>>): (toks: Docs)
    ensures |toks| == |docs|
  {
    seq(|docs|, i requires 0 <= i < |docs| =>
      Tokenize(NormalizeNumbers(if docs[i].Some? then docs[i].value else "")))
  }

  /** The one builder of the write path and of the serving fallback. */
  function Build(ln: real -> real, docs: seq<Option<string>>): (x: Index)
    ensures x.n == |docs| == |x.tf| == |x.doclen|
  {
    BuildIndex(ln, Prepare(docs))
  }

  // ---------------------------------------------------------------- scoring

  /** What scoring needs of a state so that no denominator is zero. */
  predicate Scorable(x: Index) {
    x.k1 > 0.0 && 0.0 <= x.b < 1.0 && x.avgdl >= 0.0 && |x.tf| == x.n && |x.doclen| == x.n
  }

  function Norm(k1: real, b: real, dl: nat, avgdl: real): (d: real)
    requires k1 > 0.0 && 0.0 <= b < 1.0 && avgdl > 0.0
    ensures d > 0.0
  {
    var relative := Relative(b, dl, avgdl);
    NormPositive(k1, b, relative);
    k1 * (1.0 - b + relative)
  }

  function Relative(b: real, dl: nat, avgdl: real): (r: real)
    requires 0.0 <= b && avgdl > 0.0
    ensures r >= 0.0
  {
    assert b * dl as real >= 0.0;
    b * dl as real / avgdl
  }

  lemma NormPositive(k1: real, b: real, relative: real)
    requires k1 > 0.0 && b < 1.0 && relative >= 0.0
    ensures k1 * (1.0 - b + relative) > 0.0
  {
  }

  function Term(idf: real, f: nat, k1: real, norm: real): real
    requires norm > 0.0
  {
    idf * (f as real * (k1 + 1.0)) / (f as real + norm)
  }

  function TermOf(x: Index, i: nat, w: string): real
    requires Scorable(x) && x.avgdl > 0.0 && i < x.n
  {
    if w in x.tf[i] && x.tf[i][w] > 0
    then Term(if w in x.idf then x.idf[w] else 0.0, x.tf[i][w], x.k1, Norm(x.k1, x.b, x.doclen[i], x.avgdl))
    else 0.0
  }

  function ScoreDoc(x: Index, i: nat, q: seq<string>): real
    requires Scorable(x) && x.avgdl > 0.0 && i < x.n
  {
    if q == [] then 0.0 else ScoreDoc(x, i, q[..|q| - 1]) + TermOf(x, i, q[|q| - 1])
  }

  function Scores(x: Index, q: seq<string>): (out: seq<real>)
    requires Scorable(x)
    ensures |out| == x.n
  {
    seq(x.n, i requires 0 <= i < x.n => if x.avgdl == 0.0 then 0.0 else ScoreDoc(x, i, q))
  }

  // ---------------------------------------------------------------- the class

  /** The counting loop of the constructor. */
  method CountTerms(toks: Docs) returns (total: nat, df: map<string, nat>)
    ensures total == TotalLength(toks) && df.Keys == Vocabulary(toks)
    ensures forall w :: w in df ==> df[w] == DocFreq(toks, w)
  {
    total, df := 0, map[];
    for i := 0 to |toks|
      invariant total == TotalLength(toks[..i])
      invariant df.Keys == Vocabulary(toks[..i])
      invariant forall w :: w in df ==> df[w] == DocFreq(toks[..i], w)
    {
      assert toks[..i + 1][..i] == toks[..i];
      assert toks[..i + 1] == toks[..i] + [toks[i]];
      total := total + |toks[i]|;
      df := CountUp(df, toks[..i], toks[i]);
    }
    assert toks[..|toks|] == toks;
  }

  /** The index object: built once from documents, or restored from a saved state. */
  class BM25 {
    var k1: real
    var b: real
    var N: nat
    var avgdl: real
    var idf: map<string, real>
    var tf: seq<map<string, nat>>
    var doclen: seq<nat>

    function State(): Index
      reads this
    {
      Index(k1, b, N, avgdl, idf, tf, doclen)
    }

    constructor (ln: real -> real, docs: seq<string>)
      ensures State() == BuildIndex(ln, seq(|docs|, i requires 0 <= i < |docs| => Tokenize(docs[i])))
    {
      var toks := seq(|docs|, i requires 0 <= i < |docs| => Tokenize(docs[i]));
      var total, df := CountTerms(toks);
      k1, b, N := K1, B, |toks|;
      avgdl := if |toks| > 0 then total as real / |toks| as real else 0.0;
      idf := map w | w in df :: Idf(ln, |toks|, df[w]);
      tf := seq(|toks|, i requires 0 <= i < |toks| => Counter(toks[i]));
      doclen := seq(|toks|, i requires 0 <= i < |toks| => |toks[i]|);
    }

    /** A saved state is adopted as it is. */
    constructor Restore(x: Index)
      ensures State() == x
    {
      k1, b, N, avgdl, idf, tf, doclen := x.k1, x.b, x.n, x.avgdl, x.idf, x.tf, x.doclen;
    }

    method ScoreAll(query: string) returns (out: seq<real>)
      requires Scorable(State())
      ensures out == Scores(State(), Tokenize(query))
    {
      var q := Tokenize(query);
      out := seq(N, _ => 0.0);
      if avgdl == 0.0 {
        return;
      }
      for i := 0 to N
        invariant |out| == N
        invariant forall j :: 0 <= j < i ==> out[j] == ScoreDoc(State(), j, q)
      {
        var s := 0.0;
        for j := 0 to |q|
          invariant s == ScoreDoc(State(), i, q[..j])
        {
          assert q[..j + 1][..j] == q[..j];
          if q[j] in tf[i] && tf[i][q[j]] > 0 {
            var f, weight := tf[i][q[j]], if q[j] in idf then idf[q[j]] else 0.0;
            s := s + Term(weight, f, k1, Norm(k1, b, doclen[i], avgdl));
          }
        }
        assert q[..|q|] == q;
        out := out[i := s];
      }
    }
  }

  /** `df.update(set(d))`: one more document for each distinct term of `d`. */
  function CountUp(df: map<string, nat>, ghost before: Docs, d: seq<string>): (r: map<string, nat>)
    requires df.Keys == Vocabulary(before) && forall w :: w in df ==> df[w] == DocFreq(before, w)
    ensures r.Keys == Vocabulary(before + [d])
    ensures forall w :: w in r ==> r[w] == DocFreq(before + [d], w)
  {
    assert (before + [d])[..|before|] == before;
    assert forall w :: w !in df ==> DocFreq(before, w) == 0 by {
      forall w | w !in df ensures DocFreq(before, w) == 0 { DocFreqBounds(before, w); }
    }
    df + map w | w in SetOf(d) :: (if w in df then df[w] else 0) + 1
  }

  // ---------------------------------------------------------------- the formula

  /** One query token's share, from the documents themselves. */
  function FormulaTerm(ln: real -> real, toks: Docs, i: nat, w: string): real
    requires i < |toks| && TotalLength(toks) > 0
  {
    var n := |toks|;
    var f, df := Count(toks[i], w), DocFreq(toks, w);
    var avg := TotalLength(toks) as real / n as real;
    if f == 0 then 0.0 else Term(Idf(ln, n, df), f, K1, Norm(K1, B, |toks[i]|, avg))
  }

  function Formula(ln: real -> real, toks: Docs, i: nat, q: seq<string>): real
    requires i < |toks| && TotalLength(toks) > 0
  {
    if q == [] then 0.0 else Formula(ln, toks, i, q[..|q| - 1]) + FormulaTerm(ln, toks, i, q[|q| - 1])
  }

  lemma BuildScorable(ln: real -> real, toks: Docs)
    ensures Scorable(BuildIndex(ln, toks))
    ensures BuildIndex(ln, toks).avgdl == 0.0 <==> TotalLength(toks) == 0
  {
    if toks == [] {
    } else if TotalLength(toks) > 0 {
      assert TotalLength(toks) as real / |toks| as real > 0.0;
    }
  }

  lemma {:induction false} ScoreDocIsFormula(ln: real -> real, toks: Docs, i: nat, q: seq<string>)
    requires i < |toks| && TotalLength(toks) > 0
    requires Scorable(BuildIndex(ln, toks)) && BuildIndex(ln, toks).avgdl > 0.0
    ensures ScoreDoc(BuildIndex(ln, toks), i, q) == Formula(ln, toks, i, q)
  {
    if q != [] {
      var w := q[|q| - 1];
      ScoreDocIsFormula(ln, toks, i, q[..|q| - 1]);
      CountPositive(toks[i], w);
      if w in toks[i] {
        VocabularyHolds(toks, i, w);
      }
    }
  }

  lemma IdfPositive(ln: real -> real, n: nat, f: nat)
    requires LogLike(ln) && f <= n
    ensures Idf(ln, n, f) > 0.0
  {
    var x := (n as real - f as real + 0.5) / (f as real + 0.5);
    assert x > 0.0;
    assert ln(1.0) < ln(1.0 + x);
  }

  lemma TermBounds(idf: real, f: nat, k1: real, norm: real)
    requires idf > 0.0 && f > 0 && k1 > 0.0 && norm > 0.0
    ensures 0.0 < Term(idf, f, k1, norm) < (k1 + 1.0) * idf
  {
    var r := f as real / (f as real + norm);
    assert 0.0 < r < 1.0;
    var top := (k1 + 1.0) * idf;
    assert top > 0.0;
    assert Term(idf, f, k1, norm) == top * r;
  }

  /** The summed idf of the query tokens, each occurrence counted. */
  function IdfSum(ln: real -> real, toks: Docs, q: seq<string>): real {
    if q == [] then 0.0
    else IdfSum(ln, toks, q[..|q| - 1]) + Idf(ln, |toks|, DocFreq(toks, q[|q| - 1]))
  }

  predicate Shares(d: seq<string>, q: seq<string>) {
    exists k :: 0 <= k < |q| && q[k] in d
  }

  lemma {:induction false} FormulaBounds(ln: real -> real, toks: Docs, i: nat, q: seq<string>)
    requires LogLike(ln) && i < |toks| && TotalLength(toks) > 0
    ensures Formula(ln, toks, i, q) >= 0.0
    ensures Formula(ln, toks, i, q) == 0.0 <==> !Shares(toks[i], q)
    ensures IdfSum(ln, toks, q) >= 0.0
    ensures Formula(ln, toks, i, q) <= (K1 + 1.0) * IdfSum(ln, toks, q)
    ensures Shares(toks[i], q) ==> Formula(ln, toks, i, q) < (K1 + 1.0) * IdfSum(ln, toks, q)
  {
    if q != [] {
      var p, w := q[..|q| - 1], q[|q| - 1];
      FormulaBounds(ln, toks, i, p);
      CountPositive(toks[i], w);
      DocFreqBounds(toks, w);
      IdfPositive(ln, |toks|, DocFreq(toks, w));
      SharesLast(toks[i], q);
      if w in toks[i] {
        var avg := TotalLength(toks) as real / |toks| as real;
        TermBounds(Idf(ln, |toks|, DocFreq(toks, w)), Count(toks[i], w), K1, Norm(K1, B, |toks[i]|, avg));
      }
    }
  }

  lemma SharesLast(d: seq<string>, q: seq<string>)
    requires q != []
    ensures Shares(d, q) <==> Shares(d, q[..|q| - 1]) || q[|q| - 1] in d
  {
    var p := q[..|q| - 1];
    if Shares(d, q) {
      var k :| 0 <= k < |q| && q[k] in d;
      if k < |p| {
        assert p[k] in d;
      }
    }
    if Shares(d, p) {
      var k :| 0 <= k < |p| && p[k] in d;
      assert q[k] in d;
    }
  }

  /** The score of a document is the BM25 formula read off the tokens.  It is zero exactly
      when the document holds no query token, and otherwise positive and below (k1 + 1)
      times the summed idf of the query. */
  lemma ScoresAreTheFormula(ln: real -> real, toks: Docs, q: seq<string>, i: nat)
    requires LogLike(ln) && i < |toks|
    ensures Scorable(BuildIndex(ln, toks))
    ensures TotalLength(toks) > 0 ==> Scores(BuildIndex(ln, toks), q)[i] == Formula(ln, toks, i, q)
    ensures Scores(BuildIndex(ln, toks), q)[i] == 0.0 <==> !Shares(toks[i], q)
    ensures Shares(toks[i], q) ==>
              0.0 < Scores(BuildIndex(ln, toks), q)[i] < (K1 + 1.0) * IdfSum(ln, toks, q)
  {
    BuildScorable(ln, toks);
    if TotalLength(toks) > 0 {
      ScoreDocIsFormula(ln, toks, i, q);
      FormulaBounds(ln, toks, i, q);
    } else {
      EmptyDocs(toks, i);
    }
  }

  lemma {:induction false} EmptyDocs(toks: Docs, i: nat)
    requires TotalLength(toks) == 0 && i < |toks|
    ensures toks[i] == []
  {
    if i < |toks| - 1 {
      EmptyDocs(toks[..|toks| - 1], i);
    }
  }

  lemma TimesAverage(total: real, n: real)
    requires n > 0.0
    ensures n * (total / n) == total
  {
  }

  /** Document lengths sum to N times the average. */
  lemma LengthsSum(ln: real -> real, toks: Docs)
    ensures BuildIndex(ln, toks).n as real * BuildIndex(ln, toks).avgdl == TotalLength(toks) as real
  {
    if toks != [] {
      TimesAverage(TotalLength(toks) as real, |toks| as real);
    }
  }

  /** The idf of a term is taken at the number of documents that hold it. */
  lemma IdfCountsHolders(ln: real -> real, toks: Docs, w: string)
    ensures var x := BuildIndex(ln, toks);
            && (w in x.idf <==> |Holders(toks, w)| > 0)
            && (w in x.idf ==> x.idf[w] == Idf(ln, |toks|, |Holders(toks, w)|))
  {
    DocFreqCounts(toks, w);
    DocFreqBounds(toks, w);
  }

  /** Texts with the same tokens up to the digit or word form of small numbers. */
  predicate SameForms(a: string, b: string) {
    Clear(a) && Clear(b) && TokenWords(NUM_WORDS, Tokenize(a)) == TokenWords(NUM_WORDS, Tokenize(b))
  }

  function Given(docs: seq<string>): (d: seq<Option<string>>)
    ensures |d| == |docs|
  {
    seq(|docs|, i requires 0 <= i < |docs| => Some(docs[i]))
  }

  lemma NumberFormsIndexAlike(ln: real -> real, docs: seq<string>, other: seq<string>)
    requires |docs| == |other|
    requires forall i :: 0 <= i < |docs| ==> SameForms(docs[i], other[i])
    ensures Build(ln, Given(docs)) == Build(ln, Given(other))
  {
    forall i | 0 <= i < |docs| ensures Prepare(Given(docs))[i] == Prepare(Given(other))[i] {
      NormalizeIsTokenMap(docs[i], other[i]);
    }
    assert Prepare(Given(docs)) == Prepare(Given(other));
  }

  /** Documents and queries that differ only in digit or word form of small numbers build
      the same index and score the same. */
  lemma NumberFormsScoreAlike(
    ln: real -> real, docs: seq<string>, other: seq<string>, query: string, asked: string)
    requires |docs| == |other|
    requires forall i :: 0 <= i < |docs| ==> SameForms(docs[i], other[i])
    requires SameForms(query, asked)
    ensures var x, y := Build(ln, Given(docs)), Build(ln, Given(other));
            && Scorable(x) && Scorable(y)
            && Scores(x, Tokenize(NormalizeNumbers(query))) == Scores(y, Tokenize(NormalizeNumbers(asked)))
  {
    NumberFormsIndexAlike(ln, docs, other);
    BuildScorable(ln, Prepare(Given(docs)));
    NormalizeIsTokenMap(query, asked);
  }
}
