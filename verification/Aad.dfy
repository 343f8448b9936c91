/** The associated data that binds a ciphertext to its chunk: an injective binary encoding. */
module Aad {
  import opened Wrappers

  /** The context, with the file identifier as its UTF-8 bytes. */
  datatype ChunkAad = ChunkAad(fileId: seq<byte>, chunkIndex: nat, totalChunks: nat, formatVersion: nat)

  predicate ValidContext(c: ChunkAad) {
    c.chunkIndex < 0x1_0000_0000 && c.totalChunks < 0x1_0000_0000 && c.formatVersion < 0x1_0000_0000
  }

  /** Little-endian bytes of the low 8*k bits. */
  function LittleEndian(n: nat, k: nat): (b: seq<byte>)
    ensures |b| == k
    decreases k
  {
    if k == 0 then [] else [(n % 256) as byte] + LittleEndian(n / 256, k - 1)
  }

  function Power256(k: nat): nat {
    if k == 0 then 1 else 256 * Power256(k - 1)
  }

  /** "TELEVAULT-CHUNK-v1" and a zero byte. */
  const MAGIC: seq<byte> :=
    [84, 69, 76, 69, 86, 65, 85, 76, 84, 45, 67, 72, 85, 78, 75, 45, 118, 49, 0]

  function Encode(c: ChunkAad): seq<byte> {
    MAGIC + LittleEndian(|c.fileId| % 0x1_0000, 2) + c.fileId
    + LittleEndian(c.chunkIndex, 4) + LittleEndian(c.totalChunks, 4) + LittleEndian(c.formatVersion, 4)
  }

  /** The encoder as written: fields appended in order; the length is truncated to 16 bits. */
  method ToAadBytes(c: ChunkAad) returns (bytes: seq<byte>)
    ensures bytes == Encode(c)
  {
    bytes := [];
    bytes := bytes + MAGIC;
    assert bytes == MAGIC;
    bytes := bytes + LittleEndian(|c.fileId| % 0x1_0000, 2);
    bytes := bytes + c.fileId;
    bytes := bytes + LittleEndian(c.chunkIndex, 4);
    bytes := bytes + LittleEndian(c.totalChunks, 4);
    bytes := bytes + LittleEndian(c.formatVersion, 4);
  }

  lemma {:induction false} LittleEndianInjective(a: nat, b: nat, k: nat)
    requires a < Power256(k) && b < Power256(k)
    requires LittleEndian(a, k) == LittleEndian(b, k)
    ensures a == b
    decreases k
  {
    if k > 0 {
      var x, y := LittleEndian(a, k), LittleEndian(b, k);
      assert x[0] == y[0] && x[1..] == y[1..];
      assert x[1..] == LittleEndian(a / 256, k - 1) && y[1..] == LittleEndian(b / 256, k - 1);
      LittleEndianInjective(a / 256, b / 256, k - 1);
    }
  }

  /** A four-field tail determines its fields. */
  lemma TailInjective(a: ChunkAad, b: ChunkAad)
    requires ValidContext(a) && ValidContext(b)
    requires LittleEndian(a.chunkIndex, 4) == LittleEndian(b.chunkIndex, 4)
    requires LittleEndian(a.totalChunks, 4) == LittleEndian(b.totalChunks, 4)
    requires LittleEndian(a.formatVersion, 4) == LittleEndian(b.formatVersion, 4)
    ensures a.chunkIndex == b.chunkIndex && a.totalChunks == b.totalChunks && a.formatVersion == b.formatVersion
  {
    assert Power256(4) == 0x1_0000_0000 by {
      assert Power256(2) == 0x1_0000;
    }
    LittleEndianInjective(a.chunkIndex, b.chunkIndex, 4);
    LittleEndianInjective(a.totalChunks, b.totalChunks, 4);
    LittleEndianInjective(a.formatVersion, b.formatVersion, 4);
  }

  /** Where each field sits, counted from both ends. */
  lemma Slices(c: ChunkAad)
    ensures var e := Encode(c); var n := |e|;
            && n == 33 + |c.fileId|
            && e[21..n - 12] == c.fileId
            && e[n - 12..n - 8] == LittleEndian(c.chunkIndex, 4)
            && e[n - 8..n - 4] == LittleEndian(c.totalChunks, 4)
            && e[n - 4..] == LittleEndian(c.formatVersion, 4)
  {
  }

  /**
   Distinct contexts have distinct encodings, for identifiers of any length: the total length fixes
   the identifier even where the 16-bit length prefix has wrapped.
   */
  lemma EncodeInjective(a: ChunkAad, b: ChunkAad)
    requires ValidContext(a) && ValidContext(b)
    ensures Encode(a) == Encode(b) ==> a == b
  {
    if Encode(a) == Encode(b) {
      Slices(a);
      Slices(b);
      TailInjective(a, b);
    }
  }

  /** The length prefix alone does not separate identifiers 65536 bytes apart. */
  lemma PrefixWraps(a: ChunkAad, b: ChunkAad)
    requires |b.fileId| == |a.fileId| + 0x1_0000
    ensures Encode(a)[..21] == Encode(b)[..21] && Encode(a) != Encode(b)
  {
    assert |a.fileId| % 0x1_0000 == |b.fileId| % 0x1_0000;
  }

  // ----- the layout ----------------------------------------------------------------------------

  /** The number that little-endian bytes stand for. */
  function FromLittleEndian(b: seq<byte>): nat {
    if b == [] then 0 else b[0] as nat + 256 * FromLittleEndian(b[1..])
  }

  lemma {:induction false} ReadsBack(n: nat, k: nat)
    requires n < Power256(k)
    ensures FromLittleEndian(LittleEndian(n, k)) == n
    decreases k
  {
    if k > 0 {
      assert LittleEndian(n, k)[1..] == LittleEndian(n / 256, k - 1);
      ReadsBack(n / 256, k - 1);
    }
  }

  /** The fields stand in the documented order, and every number reads back from its four bytes. */
  lemma Layout(c: ChunkAad)
    requires ValidContext(c)
    ensures var e := Encode(c); var n := |e|;
            && n == 33 + |c.fileId| && e[..19] == MAGIC
            && FromLittleEndian(e[19..21]) == |c.fileId| % 65536
            && e[21..n - 12] == c.fileId
            && FromLittleEndian(e[n - 12..n - 8]) == c.chunkIndex
            && FromLittleEndian(e[n - 8..n - 4]) == c.totalChunks
            && FromLittleEndian(e[n - 4..]) == c.formatVersion
  {
    Slices(c);
    assert Encode(c)[19..21] == LittleEndian(|c.fileId| % 0x1_0000, 2);
    assert Power256(2) == 0x1_0000;
    assert Power256(4) == 0x1_0000_0000;
    ReadsBack(|c.fileId| % 0x1_0000, 2);
    ReadsBack(c.chunkIndex, 4);
    ReadsBack(c.totalChunks, 4);
    ReadsBack(c.formatVersion, 4);
  }

  /** The magic prefix in letters. */
  lemma MagicText()
    ensures |MAGIC| == 19 && MAGIC[18] == 0
    ensures forall i :: 0 <= i < 18 ==> MAGIC[i] as int == "TELEVAULT-CHUNK-v1"[i] as int
  {
  }
}
