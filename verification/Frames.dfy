/** The binary frames of the two prebuilt sidecars, down to the byte. */
module Frames {
  import opened Options

  type byte = x: int | 0 <= x < 256
  type bytes = seq<byte>

  /** The bit pattern of a float32. */
  type Word = x: int | 0 <= x < 0x1_0000_0000

  type Matrix = seq<seq<Word>>

  // ---------------------------------------------------------------- integers

  /** `n` as `width` little-endian bytes. */
  function LittleEndian(n: nat, width: nat): (b: bytes)
    ensures |b| == width
  {
    if width == 0 then [] else [n % 256] + LittleEndian(n / 256, width - 1)
  }

  function FromLittleEndian(b: bytes): nat {
    if b == [] then 0 else b[0] + 256 * FromLittleEndian(b[1..])
  }

  function Pow256(k: nat): (p: nat)
    ensures p > 0
  {
    if k == 0 then 1 else 256 * Pow256(k - 1)
  }

  lemma {:induction false} LittleEndianRoundTrip(n: nat, width: nat)
    requires n < Pow256(width)
    ensures FromLittleEndian(LittleEndian(n, width)) == n
    ensures width > 0 ==> LittleEndian(n, width)[0] == n % 256
  {
    if width > 0 {
      LittleEndianRoundTrip(n / 256, width - 1);
      assert LittleEndian(n, width)[1..] == LittleEndian(n / 256, width - 1);
    }
  }

  lemma Widths()
    ensures Pow256(4) == 0x1_0000_0000 && Pow256(8) == 0x1_0000_0000_0000_0000
  {
    assert Pow256(1) == 256 && Pow256(2) == 65536 && Pow256(3) == 0x1_000000;
    assert Pow256(4) == 0x1_0000_0000;
    assert Pow256(5) == 0x1_00_0000_0000 && Pow256(6) == 0x1_0000_0000_0000;
    assert Pow256(7) == 0x1_00_0000_0000_0000;
  }

  // ---------------------------------------------------------------- matrices

  function RowBytes(row: seq<Word>): (b: bytes)
    ensures |b| == 4 * |row|
  {
    if row == [] then [] else LittleEndian(row[0], 4) + RowBytes(row[1..])
  }

  predicate Uniform(m: Matrix, dims: nat) {
    forall i :: 0 <= i < |m| ==> |m[i]| == dims
  }

  /** The row-major bytes of a matrix. */
  function RawBytes(m: Matrix, dims: nat): (b: bytes)
    requires Uniform(m, dims)
    ensures |b| == |m| * dims * 4
  {
    if m == [] then [] else
      Rows1(|m|, dims);
      RowBytes(m[0]) + RawBytes(m[1..], dims)
  }

  lemma Rows1(rows: nat, dims: nat)
    requires rows > 0
    ensures rows * dims * 4 == 4 * dims + (rows - 1) * dims * 4
  {
  }

  function ReadRow(b: bytes, dims: nat): (row: seq<Word>)
    requires |b| == 4 * dims
    ensures |row| == dims
  {
    if dims == 0 then [] else
      var w := FromLittleEndian(b[..4]);
      Word4(b[..4]);
      [w] + ReadRow(b[4..], dims - 1)
  }

  lemma Word4(b: bytes)
    requires |b| == 4
    ensures FromLittleEndian(b) < 0x1_0000_0000
  {
    assert b[1..][1..] == b[2..] && b[2..][1..] == b[3..] && b[3..][1..] == [];
    assert FromLittleEndian(b) == b[0] + 256 * FromLittleEndian(b[1..]);
    assert FromLittleEndian(b[1..]) == b[1] + 256 * FromLittleEndian(b[2..]);
    assert FromLittleEndian(b[2..]) == b[2] + 256 * FromLittleEndian(b[3..]);
    assert FromLittleEndian(b[3..]) == b[3] + 256 * FromLittleEndian([]);
  }

  /** `frombuffer(raw).reshape(rows, dims)`. */
  function ReadMatrix(b: bytes, rows: nat, dims: nat): (m: Matrix)
    requires |b| == rows * dims * 4
    ensures |m| == rows && Uniform(m, dims)
  {
    if rows == 0 then [] else
      Rows1(rows, dims);
      [ReadRow(b[..4 * dims], dims)] + ReadMatrix(b[4 * dims..], rows - 1, dims)
  }

  lemma {:induction false} RowRoundTrip(row: seq<Word>)
    ensures ReadRow(RowBytes(row), |row|) == row
  {
    if row != [] {
      var b := RowBytes(row);
      assert b[..4] == LittleEndian(row[0], 4) && b[4..] == RowBytes(row[1..]);
      Widths();
      LittleEndianRoundTrip(row[0], 4);
      RowRoundTrip(row[1..]);
    }
  }

  lemma {:induction false} MatrixRoundTrip(m: Matrix, dims: nat)
    requires Uniform(m, dims)
    ensures ReadMatrix(RawBytes(m, dims), |m|, dims) == m
  {
    if m != [] {
      var b := RawBytes(m, dims);
      Rows1(|m|, dims);
      assert b[..4 * dims] == RowBytes(m[0]) && b[4 * dims..] == RawBytes(m[1..], dims);
      RowRoundTrip(m[0]);
      MatrixRoundTrip(m[1..], dims);
    }
  }

  // ---------------------------------------------------------------- compression

  /** zstd: decompression is told the original length and may fail on other bytes. */
  datatype Zip = Zip(compress: bytes -> bytes, decompress: (bytes, nat) -> Option<bytes>)

  ghost predicate Lossless(zip: Zip) {
    forall b: bytes :: zip.decompress(zip.compress(b), |b|) == Some(b)
  }

  // ---------------------------------------------------------------- embedding frame

  const EMB_MAGIC: bytes := [0x50, 0x45, 0x50, 0x45, 0x4D, 0x42, 0x46, 0x00]
  const EMB_HEADER := 88

  predicate StartsWith(data: bytes, magic: bytes) {
    magic <= data
  }

  /** Absent when the rows do not form a matrix or a size does not fit its field. */
  function SerializeEmbeddings(zip: Zip, m: Matrix, sha: bytes): (f: Option<bytes>)
    requires |m| > 0 && |sha| == 64
    ensures f.Some? <==> Uniform(m, |m[0]|) && Packable(|m|, |m[0]|)
  {
    var dims := |m[0]|;
    if !Uniform(m, dims) || !Packable(|m|, dims) then None
    else
      var raw := RawBytes(m, dims);
      Some(EMB_MAGIC + LittleEndian(|raw|, 8) + LittleEndian(|m|, 4) + LittleEndian(dims, 4) + sha
           + zip.compress(raw))
  }

  predicate Packable(rows: nat, dims: nat) {
    rows < 0x1_0000_0000 && dims < 0x1_0000_0000 && rows * dims * 4 < 0x1_0000_0000_0000_0000
  }

  function DeserializeEmbeddings(zip: Zip, data: bytes, sha: bytes): (r: Option<Matrix>) {
    if !StartsWith(data, EMB_MAGIC) || |data| < EMB_HEADER then None
    else
      var rawLen := FromLittleEndian(data[8..16]);
      var rows, dims := FromLittleEndian(data[16..20]), FromLittleEndian(data[20..24]);
      if data[24..88] != sha || rawLen != rows * dims * 4 then None
      else
        match zip.decompress(data[88..], rawLen)
        case None => None
        case Some(raw) => if |raw| != rawLen then None else Some(ReadMatrix(raw, rows, dims))
  }

  /** Where each field of a frame lies. */
  lemma FrameFields(zip: Zip, m: Matrix, sha: bytes)
    requires |m| > 0 && |sha| == 64 && SerializeEmbeddings(zip, m, sha).Some?
    ensures var data, dims := SerializeEmbeddings(zip, m, sha).value, |m[0]|;
            && Uniform(m, dims) && |data| >= EMB_HEADER
            && data[..8] == EMB_MAGIC
            && data[8..16] == LittleEndian(|RawBytes(m, dims)|, 8)
            && data[16..20] == LittleEndian(|m|, 4)
            && data[20..24] == LittleEndian(dims, 4)
            && data[24..88] == sha
            && data[88..] == zip.compress(RawBytes(m, dims))
  {
  }

  /** Reading back a frame gives the matrix for the digest it was written with, and
      nothing for any other digest. */
  lemma EmbeddingsRoundTrip(zip: Zip, m: Matrix, sha: bytes, other: bytes)
    requires Lossless(zip) && |m| > 0 && |sha| == 64
    requires SerializeEmbeddings(zip, m, sha).Some?
    ensures DeserializeEmbeddings(zip, SerializeEmbeddings(zip, m, sha).value, other)
            == if other == sha then Some(m) else None
  {
    var dims := |m[0]|;
    FrameFields(zip, m, sha);
    Widths();
    LittleEndianRoundTrip(|RawBytes(m, dims)|, 8);
    LittleEndianRoundTrip(|m|, 4);
    LittleEndianRoundTrip(dims, 4);
    MatrixRoundTrip(m, dims);
  }

  /** A frame is accepted only with the magic, a whole header, this digest, and a length
      field that is the matrix size. */
  lemma EmbeddingsAcceptance(zip: Zip, data: bytes, sha: bytes)
    ensures DeserializeEmbeddings(zip, data, sha).Some? ==>
              && StartsWith(data, EMB_MAGIC) && |data| >= EMB_HEADER && data[24..88] == sha
              && FromLittleEndian(data[8..16])
                 == FromLittleEndian(data[16..20]) * FromLittleEndian(data[20..24]) * 4
              && |DeserializeEmbeddings(zip, data, sha).value| == FromLittleEndian(data[16..20])
              && Uniform(DeserializeEmbeddings(zip, data, sha).value, FromLittleEndian(data[20..24]))
  {
  }

  // ---------------------------------------------------------------- index frame

  const INDEX_MAGIC: bytes := [0x50, 0x45, 0x50, 0x42, 0x4D, 0x32, 0x35, 0x00]

  /** The JSON text of the index state, framed; absent when the length does not fit. */
  function SerializeText(zip: Zip, text: bytes): Option<bytes> {
    if |text| < 0x1_0000_0000_0000_0000
    then Some(INDEX_MAGIC + LittleEndian(|text|, 8) + zip.compress(text))
    else None
  }

  function DeserializeText(zip: Zip, data: bytes): Option<bytes> {
    if !StartsWith(data, INDEX_MAGIC) || |data| < 16 then None
    else zip.decompress(data[16..], FromLittleEndian(data[8..16]))
  }

  lemma TextRoundTrip(zip: Zip, text: bytes)
    requires Lossless(zip) && SerializeText(zip, text).Some?
    ensures DeserializeText(zip, SerializeText(zip, text).value) == Some(text)
  {
    var data := SerializeText(zip, text).value;
    assert data[..8] == INDEX_MAGIC && data[8..16] == LittleEndian(|text|, 8) && data[16..] == zip.compress(text);
    Widths();
    LittleEndianRoundTrip(|text|, 8);
  }
}
