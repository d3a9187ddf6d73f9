/** The versioned corpus artifact: what a publisher writes, what a reader accepts, and the
    two prebuilt sidecars that are used only when they provably belong to the rows. */
module Artifact {
  import opened Options
  import opened Frames
  import opened Bm25

  /** Chunk metadata; `flags` are the `has_speaker_*` keys that are set. */
  datatype Meta = Meta(guid: string, number: int, date: string, flags: set<string>)

  datatype Row = Row(chunkId: string, text: Option<string>, embedding: seq<Word>, meta: Meta)

  type Rows = seq<Row>

  /** The JSON state of the index sidecar. */
  datatype Saved = Saved(format: int, fingerprint: Option<string>, index: Index, sha: bytes, count: nat)

  /** The libraries below the artifact code, the fingerprint of this code version, and the
      finitely many corpora and index states that ever occur in a deployment.
      `sha` is the hex digest of the parquet file that encodes the rows. */
  datatype Env = Env(
    zip: Zip, ln: real -> real, sha: Rows -> bytes,
    json: Saved -> bytes, parse: bytes -> Option<Saved>, fingerprint: Option<string>,
    corpora: set<Rows>, states: set<Saved>)

  /** Compression is invertible, the digest is 64 characters long and does not collide, and
      JSON text reads back as the state that was written. */
  ghost predicate Good(env: Env) {
    && Lossless(env.zip)
    && (forall r :: r in env.corpora ==> |env.sha(r)| == 64)
    && (forall r, q :: r in env.corpora && q in env.corpora && env.sha(r) == env.sha(q) ==> r == q)
    && (forall x :: x in env.states ==> env.parse(env.json(x)) == Some(x))
  }

  function Texts(rows: Rows): (d: seq<Option<string>>)
    ensures |d| == |rows|
  {
    seq(|rows|, i requires 0 <= i < |rows| => rows[i].text)
  }

  function Vectors(rows: Rows): (m: Matrix)
    ensures |m| == |rows|
  {
    seq(|rows|, i requires 0 <= i < |rows| => rows[i].embedding)
  }

  // ---------------------------------------------------------------- index sidecar

  const INDEX_FORMAT := 1

  /** A restored state is refused on another layout, another code version, or when its
      sizes disagree with each other or with the corpus. */
  function FromSaved(fingerprint: Option<string>, s: Saved, count: nat): Option<Index> {
    if s.format != INDEX_FORMAT then None
    else if fingerprint.None? || s.fingerprint != fingerprint then None
    else if |s.index.tf| != s.index.n || |s.index.doclen| != s.index.n then None
    else if count != s.index.n then None
    else Some(s.index)
  }

  function SerializeIndex(env: Env, s: Saved): Option<bytes> {
    SerializeText(env.zip, env.json(s))
  }

  function DeserializeIndex(env: Env, data: bytes, sha: bytes, count: nat): Option<Index> {
    match DeserializeText(env.zip, data)
    case None => None
    case Some(text) =>
      match env.parse(text)
      case None => None
      case Some(s) => if s.sha != sha || s.count != count then None else FromSaved(env.fingerprint, s, count)
  }

  lemma IndexRoundTrip(env: Env, s: Saved, sha: bytes, count: nat)
    requires Good(env) && s in env.states && SerializeIndex(env, s).Some?
    ensures DeserializeIndex(env, SerializeIndex(env, s).value, sha, count)
            == if s.sha == sha && s.count == count then FromSaved(env.fingerprint, s, count) else None
  {
    TextRoundTrip(env.zip, env.json(s));
  }

  /** What an ingest run saves: provenance for its rows and, when it runs this code version,
      the index this code builds.  Another code version may save any index. */
  ghost predicate SavedFor(env: Env, s: Saved, rows: Rows) {
    && s in env.states && rows in env.corpora
    && s.format == INDEX_FORMAT && s.sha == env.sha(rows) && s.count == |rows|
    && (env.fingerprint.Some? && s.fingerprint == env.fingerprint ==> s.index == Build(env.ln, Texts(rows)))
  }

  ghost predicate IndexFrameOf(env: Env, data: bytes, s: Saved, rows: Rows) {
    SavedFor(env, s, rows) && SerializeIndex(env, s) == Some(data)
  }

  /** An accepted index is the one a rebuild over the verified rows gives. */
  lemma AcceptedIndexIsRebuilt(env: Env, data: bytes, s: Saved, origin: Rows, rows: Rows)
    requires Good(env) && rows in env.corpora && IndexFrameOf(env, data, s, origin)
    ensures DeserializeIndex(env, data, env.sha(rows), |rows|).Some? ==>
              origin == rows
              && DeserializeIndex(env, data, env.sha(rows), |rows|).value == Build(env.ln, Texts(rows))
    ensures origin == rows && env.fingerprint.Some? && s.fingerprint == env.fingerprint ==>
              DeserializeIndex(env, data, env.sha(rows), |rows|).Some?
  {
    IndexRoundTrip(env, s, env.sha(rows), |rows|);
  }

  // ---------------------------------------------------------------- parsing

  /** The corpus held in memory. */
  datatype Corpus = Corpus(
    version: nat, ids: seq<string>, docs: seq<Option<string>>, embeddings: Matrix,
    metas: seq<Meta>, prebuilt: Option<Index>)

  function Flatten(m: Matrix): seq<Word> {
    if m == [] then [] else m[0] + Flatten(m[1..])
  }

  /** `flat.reshape(rows, -1)`: equal rows in order, or an error. */
  function Reshape(flat: seq<Word>, rows: nat): Option<Matrix>
    requires rows > 0
  {
    if |flat| % rows != 0 then None else Some(Slices(flat, rows, |flat| / rows))
  }

  function Slices(flat: seq<Word>, rows: nat, dims: nat): (m: Matrix)
    requires |flat| == rows * dims
    ensures |m| == rows
  {
    if rows == 0 then [] else
      SliceSize(rows, dims);
      [flat[..dims]] + Slices(flat[dims..], rows - 1, dims)
  }

  lemma SliceSize(rows: nat, dims: nat)
    requires rows > 0
    ensures rows * dims == dims + (rows - 1) * dims
  {
  }

  lemma {:induction false} SlicesOfFlatten(m: Matrix, dims: nat)
    requires Uniform(m, dims)
    ensures |Flatten(m)| == |m| * dims
    ensures Slices(Flatten(m), |m|, dims) == m
  {
    if m != [] {
      SlicesOfFlatten(m[1..], dims);
      SliceSize(|m|, dims);
      var flat := Flatten(m);
      assert flat[..dims] == m[0] && flat[dims..] == Flatten(m[1..]);
    }
  }

  /** Rows of one width survive the flat column. */
  lemma UniformReshape(m: Matrix, dims: nat)
    requires m != [] && Uniform(m, dims)
    ensures Reshape(Flatten(m), |m|) == Some(m)
  {
    SlicesOfFlatten(m, dims);
    DivExact(|m|, dims);
  }

  lemma DivExact(n: nat, d: nat)
    requires n > 0
    ensures (n * d) % n == 0 && (n * d) / n == d
  {
    var q, r := (n * d) / n, (n * d) % n;
    assert n * d == n * q + r;
    assert n * (d - q) == r;
    if d > q {
      Scaled(n, d - q);
    }
  }

  lemma Scaled(n: nat, k: nat)
    requires k > 0
    ensures n * k >= n
  {
  }

  /** The embedding column, decoded. */
  function Decoded(rows: Rows): Option<Matrix> {
    if rows == [] then Some([]) else Reshape(Flatten(Vectors(rows)), |rows|)
  }

  /** A prebuilt matrix of the wrong height is dropped in favour of the column. */
  function FromParquet(rows: Rows, version: nat, prebuilt: Option<Matrix>): Option<Corpus> {
    var usable := prebuilt.Some? && |prebuilt.value| == |rows|;
    var embeddings := if usable then prebuilt else Decoded(rows);
    match embeddings
    case None => None
    case Some(m) =>
      Some(Corpus(version, seq(|rows|, i requires 0 <= i < |rows| => rows[i].chunkId), Texts(rows), m,
                  seq(|rows|, i requires 0 <= i < |rows| => rows[i].meta), None))
  }

  /** A matrix equal to the decoded column changes nothing. */
  lemma ParseWithDecoded(rows: Rows, version: nat)
    requires Decoded(rows).Some?
    ensures FromParquet(rows, version, Decoded(rows)) == FromParquet(rows, version, None)
  {
  }

  ghost predicate EmbFrameOf(env: Env, data: bytes, rows: Rows) {
    rows in env.corpora && rows != [] && |env.sha(rows)| == 64
    && SerializeEmbeddings(env.zip, Vectors(rows), env.sha(rows)) == Some(data)
  }

  /** A sidecar accepted for some rows gives the matrix their own column decodes to. */
  lemma AcceptedMatrixIsDecoded(env: Env, data: bytes, origin: Rows, rows: Rows)
    requires Good(env) && rows in env.corpora && EmbFrameOf(env, data, origin)
    ensures DeserializeEmbeddings(env.zip, data, env.sha(rows)).Some? ==>
              origin == rows && DeserializeEmbeddings(env.zip, data, env.sha(rows)) == Decoded(rows)
    ensures origin == rows ==> DeserializeEmbeddings(env.zip, data, env.sha(rows)).Some?
  {
    EmbeddingsRoundTrip(env.zip, Vectors(origin), env.sha(origin), env.sha(rows));
    UniformReshape(Vectors(origin), |Vectors(origin)[0]|);
  }
}
