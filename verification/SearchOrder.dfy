/** The order of the hits of a search, from the similarities and the BM25 scores themselves. */
module SearchOrder {
  import opened Options
  import opened Ordering
  import opened Frames
  import opened Tokens
  import opened Bm25
  import opened Fusion
  import opened Retrieval
  import Artifact
  import Vectors

  // ---------------------------------------------------------------- ranks

  /** How many of these numbers have a larger key, or the same one and are smaller. */
  function Rank(cand: seq<nat>, key: nat -> real, a: nat): nat {
    |set b | b in cand && (key(b) > key(a) || (key(b) == key(a) && b < a))|
  }

  /** In the sorted order the rank is the position. */
  lemma RankIsPosition(cand: seq<nat>, key: nat -> real, a: nat)
    requires Ascending(cand) && Distinct(cand) && a in cand
    ensures a in SortDescending(cand, key) && Position(SortDescending(cand, key), a) == Rank(cand, key, a)
  {
    var r := SortDescending(cand, key);
    PermutationDistinct(cand, r);
    SameElements(cand, r, a);
    var ahead := set b | b in cand && (key(b) > key(a) || (key(b) == key(a) && b < a));
    forall b ensures b in ahead <==> b in Elements(r[..Position(r, a)]) {
      RankMember(cand, key, a, b);
    }
    assert ahead == Elements(r[..Position(r, a)]);
    PrefixSize(r, Position(r, a));
  }

  lemma RankMember(cand: seq<nat>, key: nat -> real, a: nat, b: nat)
    requires Ascending(cand) && Distinct(cand) && a in cand && a in SortDescending(cand, key)
    ensures b in cand && (key(b) > key(a) || (key(b) == key(a) && b < a))
            <==> b in Elements(SortDescending(cand, key)[..Position(SortDescending(cand, key), a)])
  {
    var r := SortDescending(cand, key);
    PermutationDistinct(cand, r);
    SameElements(cand, r, b);
    if b in r {
      InPrefix(r, b, Position(r, a));
      if a != b {
        AscendingPosition(cand, b, a);
        DescendingPosition(cand, key, b, a);
      }
    }
  }

  // ---------------------------------------------------------------- the two rankings

  /** The number of candidates that are more similar, or as similar and earlier. */
  function SemanticRank(m: Maths, e: Entry, q: Query, i: nat): nat
    requires Searchable(e) && Fits(e, q.vector, Candidates(e.metas, q.filter))
  {
    var cand := Candidates(e.metas, q.filter);
    |set j | j in cand && i in cand
             && (Similarity(m, e, q.vector, j) > Similarity(m, e, q.vector, i)
                 || (Similarity(m, e, q.vector, j) == Similarity(m, e, q.vector, i) && j < i))|
  }

  /** The number of candidates with a higher BM25 score of the normalised query, or the same
      one and earlier. */
  function LexicalRank(e: Entry, q: Query, i: nat): nat
    requires Searchable(e)
  {
    var cand, scores := Candidates(e.metas, q.filter), Scores(e.bm25, Tokenize(NormalizeNumbers(q.text)));
    |set j | j in cand && i in cand && (scores[j] > scores[i] || (scores[j] == scores[i] && j < i))|
  }

  /** What the two ranks earn with K = 60. */
  function Worth(w: real, s: nat, b: nat): real { w / (61 + s) as real + (1.0 - w) / (61 + b) as real }

  /** Ranks `s` and `b` earn more than `t` and `c`, or as much and `s` is the better one. */
  predicate WorthMore(w: real, s: nat, b: nat, t: nat, c: nat) {
    Worth(w, s, b) > Worth(w, t, c) || (Worth(w, s, b) == Worth(w, t, c) && s < t)
  }

  /** Row `i` is worth more, or as much and is semantically ahead. */
  predicate Ahead(m: Maths, e: Entry, q: Query, i: nat, j: nat)
    requires Searchable(e) && Fits(e, q.vector, Candidates(e.metas, q.filter))
  {
    WorthMore(q.weight, SemanticRank(m, e, q, i), LexicalRank(e, q, i),
              SemanticRank(m, e, q, j), LexicalRank(e, q, j))
  }

  lemma SemanticPosition(m: Maths, e: Entry, q: Query, i: nat)
    requires Searchable(e) && Fits(e, q.vector, Candidates(e.metas, q.filter)) && i in Candidates(e.metas, q.filter)
    ensures var cand := Candidates(e.metas, q.filter);
            var sem := SemanticOrder(m, e, q.vector, cand);
            i in sem && Position(sem, i) == SemanticRank(m, e, q, i)
  {
    var cand := Candidates(e.metas, q.filter);
    var key := SimilarityKey(m, e, q.vector, cand);
    RankIsPosition(cand, key, i);
    assert (set j | j in cand && (key(j) > key(i) || (key(j) == key(i) && j < i)))
        == set j | j in cand && i in cand
                   && (Similarity(m, e, q.vector, j) > Similarity(m, e, q.vector, i)
                       || (Similarity(m, e, q.vector, j) == Similarity(m, e, q.vector, i) && j < i));
  }

  lemma LexicalPosition(e: Entry, q: Query, i: nat)
    requires Searchable(e) && i in Candidates(e.metas, q.filter)
    ensures var cand := Candidates(e.metas, q.filter);
            var bm := LexicalOrder(e, q.text, cand);
            i in bm && Position(bm, i) == LexicalRank(e, q, i)
  {
    var cand, key := Candidates(e.metas, q.filter), LexicalKey(e, q.text);
    var scores := Scores(e.bm25, Tokenize(NormalizeNumbers(q.text)));
    RankIsPosition(cand, key, i);
    assert (set j | j in cand && (key(j) > key(i) || (key(j) == key(i) && j < i)))
        == set j | j in cand && i in cand && (scores[j] > scores[i] || (scores[j] == scores[i] && j < i));
  }

  // ---------------------------------------------------------------- the hits

  lemma FusedByRanks(sem: seq<nat>, bm: seq<nat>, w: real, i: nat, j: nat)
    requires Rankings(sem, bm) && i in sem && j in sem && i in bm && j in bm && i != j
    ensures i in Hybrid(sem, bm, w) && j in Hybrid(sem, bm, w)
    ensures Position(Hybrid(sem, bm, w), i) < Position(Hybrid(sem, bm, w), j)
            <==> WorthMore(w, Position(sem, i), Position(bm, i), Position(sem, j), Position(bm, j))
  {
    FusedOrder(sem, bm, w, i, j);
  }

  lemma RankedAhead(m: Maths, e: Entry, q: Query, i: nat, j: nat)
    requires Searchable(e) && Fits(e, q.vector, Candidates(e.metas, q.filter)) && i != j
    requires i in Candidates(e.metas, q.filter) && j in Candidates(e.metas, q.filter)
    ensures i in Ranked(m, e, q) && j in Ranked(m, e, q)
    ensures Position(Ranked(m, e, q), i) < Position(Ranked(m, e, q), j) <==> Ahead(m, e, q, i, j)
  {
    var cand := Candidates(e.metas, q.filter);
    var sem, bm := SemanticOrder(m, e, q.vector, cand), LexicalOrder(e, q.text, cand);
    assert Rankings(sem, bm) by {
      PermutationDistinct(cand, sem);
    }
    SemanticPosition(m, e, q, i);
    SemanticPosition(m, e, q, j);
    LexicalPosition(e, q, i);
    LexicalPosition(e, q, j);
    FusedByRanks(sem, bm, q.weight, i, j);
  }

  /** Different rows of the candidates, each ahead of those after it and of those left out. */
  ghost predicate BestFirst(m: Maths, e: Entry, q: Query, at: seq<nat>)
    requires Searchable(e) && Fits(e, q.vector, Candidates(e.metas, q.filter))
  {
    && Distinct(at) && (forall i :: i in at ==> i in Candidates(e.metas, q.filter))
    && (forall r, t :: 0 <= r < t < |at| ==> Ahead(m, e, q, at[r], at[t]))
    && (forall r, j :: 0 <= r < |at| && j in Candidates(e.metas, q.filter) && j !in at ==> Ahead(m, e, q, at[r], j))
  }

  lemma RankedIsCandidates(m: Maths, e: Entry, q: Query, i: nat)
    requires Searchable(e) && Fits(e, q.vector, Candidates(e.metas, q.filter))
    ensures Distinct(Ranked(m, e, q)) && (i in Ranked(m, e, q) <==> i in Candidates(e.metas, q.filter))
  {
    var cand := Candidates(e.metas, q.filter);
    var sem := SemanticOrder(m, e, q.vector, cand);
    PermutationDistinct(cand, sem);
    FusedPermutes(sem, LexicalOrder(e, q.text, cand), q.weight);
    SameElements(cand, sem, i);
  }

  /** A row of the cut is ahead of any other candidate that is not earlier in it. */
  lemma TakenAhead(m: Maths, e: Entry, q: Query, r: nat, j: nat)
    requires Searchable(e) && Fits(e, q.vector, Candidates(e.metas, q.filter))
    requires r < |Ranked(m, e, q)| && j in Ranked(m, e, q) && r < Position(Ranked(m, e, q), j)
    ensures Ahead(m, e, q, Ranked(m, e, q)[r], j)
  {
    var i := Ranked(m, e, q)[r];
    RankedIsCandidates(m, e, q, i);
    RankedIsCandidates(m, e, q, j);
    assert Position(Ranked(m, e, q), i) == r;
    RankedAhead(m, e, q, i, j);
  }

  lemma LaterInCut(fused: seq<nat>, k: int, r: nat, j: nat)
    requires Distinct(fused) && r < |Take(fused, k)| && j in fused
    requires j !in Take(fused, k) || exists t :: r < t < |Take(fused, k)| && Take(fused, k)[t] == j
    ensures Take(fused, k)[r] == fused[r] && r < Position(fused, j)
  {
    var at := Take(fused, k);
    if j in at {
      var t :| r < t < |at| && at[t] == j;
      assert fused[t] == j;
    } else {
      forall p | 0 <= p < |at| ensures fused[p] != j {
        assert at[p] == fused[p];
      }
    }
  }

  lemma TakenBestFirst(m: Maths, e: Entry, q: Query)
    requires Searchable(e) && Fits(e, q.vector, Candidates(e.metas, q.filter))
    ensures BestFirst(m, e, q, Take(Ranked(m, e, q), q.topK))
  {
    var cand, fused := Candidates(e.metas, q.filter), Ranked(m, e, q);
    var at := Take(fused, q.topK);
    forall i ensures Distinct(fused) && (i in fused <==> i in cand) {
      RankedIsCandidates(m, e, q, i);
    }
    assert forall r :: 0 <= r < |at| ==> at[r] == fused[r];
    forall r, j | 0 <= r < |at| && j in cand && j !in at ensures Ahead(m, e, q, at[r], j) {
      LaterInCut(fused, q.topK, r, j);
      TakenAhead(m, e, q, r, j);
    }
    forall r, t | 0 <= r < t < |at| ensures Ahead(m, e, q, at[r], at[t]) {
      LaterInCut(fused, q.topK, r, at[t]);
      TakenAhead(m, e, q, r, at[t]);
    }
  }

  /** The hits are rows in order of w / (61 + s) + (1 - w) / (61 + b), where s and b count the
      candidates ahead by similarity and by BM25 score; ties go by similarity, and the cut
      leaves out what comes last. */
  lemma HitsWeighBothRankings(m: Maths, e: Entry, q: Query) returns (at: seq<nat>)
    requires Searchable(e) && Search(m, e, q).Some?
    ensures Fits(e, q.vector, Candidates(e.metas, q.filter))
    ensures HitsAt(e, q.filter, Search(m, e, q).value, at) && BestFirst(m, e, q, at)
  {
    var cand := Candidates(e.metas, q.filter);
    if cand == [] {
      at := [];
    } else {
      HitsFollowRanking(m, e, q);
      RankedDistinct(m, e, q);
      TakenBestFirst(m, e, q);
      at := Take(Ranked(m, e, q), q.topK);
      assert forall r :: 0 <= r < |at| ==> at[r] == Ranked(m, e, q)[r];
    }
  }

  lemma LargerShare(a: nat, b: nat)
    requires 1.0 / (61 + a) as real >= 1.0 / (61 + b) as real
    ensures a <= b
  {
    var x, y := 1.0 / (61 + a) as real, 1.0 / (61 + b) as real;
    assert x * (61 + a) as real == 1.0 && y * (61 + b) as real == 1.0;
    assert y > 0.0;
    assert (x - y) * (61 + a) as real == y * (b as real - a as real);
  }

  lemma ZeroWorth(s: nat, b: nat, t: nat, c: nat)
    requires WorthMore(0.0, s, b, t, c)
    ensures b <= c
  {
    assert 0.0 / (61 + s) as real == 0.0 && 0.0 / (61 + t) as real == 0.0;
    LargerShare(b, c);
  }

  lemma OneWorth(s: nat, b: nat, t: nat, c: nat)
    requires WorthMore(1.0, s, b, t, c)
    ensures s <= t
  {
    assert 0.0 / (61 + b) as real == 0.0 && 0.0 / (61 + c) as real == 0.0;
    LargerShare(s, t);
  }

  lemma AtMostIsBefore(cand: seq<nat>, key: nat -> real, i: nat, j: nat)
    requires Ascending(cand) && Distinct(cand) && i in cand && j in cand && i != j
    requires i in SortDescending(cand, key) && j in SortDescending(cand, key)
    requires Position(SortDescending(cand, key), i) <= Position(SortDescending(cand, key), j)
    ensures key(i) > key(j) || (key(i) == key(j) && i < j)
  {
    var r := SortDescending(cand, key);
    assert r[Position(r, i)] != r[Position(r, j)];
    AscendingPosition(cand, i, j);
    DescendingPosition(cand, key, i, j);
  }

  /** At weight 0 only the words count: the hits are in the order of their BM25 scores. */
  lemma WeightZeroIsLexical(m: Maths, e: Entry, q: Query, at: seq<nat>, r: nat, t: nat)
    requires Searchable(e) && Fits(e, q.vector, Candidates(e.metas, q.filter)) && BestFirst(m, e, q, at)
    requires q.weight == 0.0 && r < t < |at|
    ensures at[r] < e.bm25.n && at[t] < e.bm25.n
    ensures var scores := Scores(e.bm25, Tokenize(NormalizeNumbers(q.text)));
            scores[at[r]] > scores[at[t]] || (scores[at[r]] == scores[at[t]] && at[r] < at[t])
  {
    var cand, i, j := Candidates(e.metas, q.filter), at[r], at[t];
    assert i in at && j in at && Ahead(m, e, q, i, j);
    ZeroWorth(SemanticRank(m, e, q, i), LexicalRank(e, q, i), SemanticRank(m, e, q, j), LexicalRank(e, q, j));
    LexicalPosition(e, q, i);
    LexicalPosition(e, q, j);
    AtMostIsBefore(cand, LexicalKey(e, q.text), i, j);
  }

  /** At weight 1 only the meaning counts: the hits are in the order of their similarities. */
  lemma WeightOneIsSemantic(m: Maths, e: Entry, q: Query, at: seq<nat>, r: nat, t: nat)
    requires Searchable(e) && Fits(e, q.vector, Candidates(e.metas, q.filter)) && BestFirst(m, e, q, at)
    requires q.weight == 1.0 && r < t < |at|
    ensures at[r] in Candidates(e.metas, q.filter) && at[t] in Candidates(e.metas, q.filter)
    ensures var x, y := Similarity(m, e, q.vector, at[r]), Similarity(m, e, q.vector, at[t]);
            x > y || (x == y && at[r] < at[t])
  {
    var cand, i, j := Candidates(e.metas, q.filter), at[r], at[t];
    assert i in at && j in at && Ahead(m, e, q, i, j);
    OneWorth(SemanticRank(m, e, q, i), LexicalRank(e, q, i), SemanticRank(m, e, q, j), LexicalRank(e, q, j));
    SemanticPosition(m, e, q, i);
    SemanticPosition(m, e, q, j);
    AtMostIsBefore(cand, SimilarityKey(m, e, q.vector, cand), i, j);
  }

  // ---------------------------------------------------------------- similarity

  /** The numbers that these patterns stand for. */
  function Numbers(value: Word -> real, v: seq<Word>): (r: seq<real>)
    ensures |r| == |v|
  {
    if v == [] then [] else [value(v[0])] + Numbers(value, v[1..])
  }

  lemma {:induction false} DotIsInner(value: Word -> real, u: seq<Word>, v: seq<Word>)
    requires |u| == |v|
    ensures Dot(value, u, v) == Vectors.Inner(Numbers(value, u), Numbers(value, v))
  {
    if u != [] {
      DotIsInner(value, u[1..], v[1..]);
      assert Numbers(value, u)[1..] == Numbers(value, u[1..]);
      assert Numbers(value, v)[1..] == Numbers(value, v[1..]);
    }
  }

  /** The norms of an entry are the lengths of its vectors. */
  ghost predicate Normed(m: Maths, e: Entry) {
    |e.norms| == |e.embeddings| && forall i :: 0 <= i < |e.norms| ==> e.norms[i] == Length(m, e.embeddings[i])
  }

  /** A loaded entry holds the published rows, whole and in order, with the lengths of their
      vectors and the index of their texts. */
  lemma RebuiltFromRows(m: Maths, e: Entry, v: nat, rows: Artifact.Rows, dims: nat)
    requires Rebuilt(m, e, v, rows) && Uniform(Artifact.Vectors(rows), dims)
    ensures Normed(m, e) && e.bm25 == Build(m.ln, Artifact.Texts(rows))
    ensures |e.ids| == |e.docs| == |e.embeddings| == |e.metas| == |rows|
    ensures forall i :: 0 <= i < |rows| ==>
              rows[i] == Artifact.Row(e.ids[i], e.docs[i], e.embeddings[i], e.metas[i])
  {
    if rows != [] {
      Artifact.UniformReshape(Artifact.Vectors(rows), dims);
    }
    assert Artifact.Decoded(rows) == Some(Artifact.Vectors(rows));
  }

  lemma RatioIsCosine(p: real, x: real, y: real)
    ensures Vectors.Ratio(p, Vectors.Product(x, y)) == Vectors.Cosine(p, x, y)
  {
    if x != 0.0 && y != 0.0 {
      Vectors.ProductNotZero(x, y);
    }
  }

  lemma LengthIsLength(m: Maths, v: seq<Word>)
    ensures Length(m, v) == Vectors.Length(m.sqrt, Numbers(m.value, v))
  {
    DotIsInner(m.value, v, v);
  }

  /** The similarity of a row is the cosine of its vector and the query's, from -1 to 1. */
  lemma SimilarityIsCosine(m: Maths, e: Entry, q: seq<Word>, i: nat)
    requires Searchable(e) && i < |e.ids| && |e.embeddings[i]| == |q| && Normed(m, e)
    ensures Similarity(m, e, q, i)
            == Vectors.CosineOf(m.sqrt, Numbers(m.value, e.embeddings[i]), Numbers(m.value, q))
    ensures Vectors.SquareRoot(m.sqrt) ==> -1.0 <= Similarity(m, e, q, i) <= 1.0
  {
    var u, v := Numbers(m.value, e.embeddings[i]), Numbers(m.value, q);
    DotIsInner(m.value, e.embeddings[i], q);
    LengthIsLength(m, e.embeddings[i]);
    LengthIsLength(m, q);
    RatioIsCosine(Dot(m.value, e.embeddings[i], q), e.norms[i], Length(m, q));
    if Vectors.SquareRoot(m.sqrt) {
      Vectors.CosineRange(m.sqrt, u, v);
    }
  }

  /** No row is more similar to the query than one with the query's own vector. */
  lemma OwnVectorIsMostSimilar(m: Maths, e: Entry, q: seq<Word>, i: nat, j: nat)
    requires Searchable(e) && Vectors.SquareRoot(m.sqrt) && i < |e.ids| && j < |e.ids|
    requires Normed(m, e)
    requires e.embeddings[i] == q && |e.embeddings[j]| == |q| && Length(m, q) != 0.0
    ensures Similarity(m, e, q, j) <= Similarity(m, e, q, i) == 1.0
  {
    SimilarityIsCosine(m, e, q, i);
    SimilarityIsCosine(m, e, q, j);
    LengthIsLength(m, q);
    Vectors.CosineOfSelf(m.sqrt, Numbers(m.value, q));
  }
}
