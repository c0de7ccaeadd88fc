/** Where each field of a frame and of a payload sits, byte by byte, and what the checksum covers (storage/codec.py). */
module CodecLayout {
  import opened Options
  import opened Codec
  import opened Payload

  function U16At(b: Bytes, i: nat): nat
    requires i + 2 <= |b|
  {
    b[i] as int + 256 * (b[i + 1] as int)
  }

  function U32At(b: Bytes, i: nat): nat
    requires i + 4 <= |b|
  {
    b[i] as int + 256 * (b[i + 1] as int) + 0x1_0000 * (b[i + 2] as int) + 0x100_0000 * (b[i + 3] as int)
  }

  function U64At(b: Bytes, i: nat): nat
    requires i + 8 <= |b|
  {
    U32At(b, i) + U32 * U32At(b, i + 4)
  }

  lemma WordAt2(b: Bytes, i: nat)
    requires i + 2 <= |b|
    ensures Word(b, i, 2) == U16At(b, i)
  {
    assert Word(b, i + 1, 1) == b[i + 1] + 256 * Word(b, i + 2, 0);
  }

  lemma WordAt4(b: Bytes, i: nat)
    requires i + 4 <= |b|
    ensures Word(b, i, 4) == U32At(b, i)
  {
    WordAt2(b, i + 2);
    assert Word(b, i + 1, 3) == b[i + 1] + 256 * Word(b, i + 2, 2);
  }

  lemma WordAt8(b: Bytes, i: nat)
    requires i + 8 <= |b|
    ensures Word(b, i, 8) == U64At(b, i)
  {
    WordAt4(b, i + 4);
    assert Word(b, i + 3, 5) == b[i + 3] + 256 * Word(b, i + 4, 4);
    assert Word(b, i + 2, 6) == b[i + 2] + 256 * Word(b, i + 3, 5);
    assert Word(b, i + 1, 7) == b[i + 1] + 256 * Word(b, i + 2, 6);
  }

  // ------------------------------------------------------------------- frames

  /**
   * The bytes of a frame: the magic letters, version 1, the kind, the flags, the sequence number and the
   * payload length, all least significant byte first; then the checksum of these twenty bytes, continued
   * over the payload; then the payload.
   */
  predicate LaidOut(crc: Checksum, b: Bytes, f: Frame) {
    && |b| == 24 + |f.payload|
    && b[0] == 'A' as int && b[1] == 'W' as int && b[2] == 'A' as int && b[3] == 'L' as int
    && U16At(b, 4) == 1
    && b[6] == (match f.kind case Put => 1 case Delete => 2 case Checkpoint => 3 case TxnCommit => 4)
    && b[7] == f.flags
    && U64At(b, 8) == f.seqno
    && U32At(b, 16) == |f.payload|
    && U32At(b, 20) == crc(f.payload, crc(b[..20], 0) % U32) % U32
    && b[24..] == f.payload
  }

  lemma EncodeLaidOut(crc: Checksum, f: Frame)
    requires Encodable(f)
    ensures LaidOut(crc, Encode(crc, f), f)
  {
    var e := Encode(crc, f);
    EncodedFields(crc, f);
    WordAt2(e, 4);
    WordAt8(e, 8);
    WordAt4(e, 16);
    WordAt4(e, 20);
    assert e[..4][0] == e[0] && e[..4][1] == e[1] && e[..4][2] == e[2] && e[..4][3] == e[3];
  }

  /** Bytes decode only if they are laid out so: in particular, only if the stored checksum is that of header and payload. */
  lemma DecodeLaidOut(crc: Checksum, buf: Bytes, offset: nat)
    requires Decode(crc, buf, offset).Intact?
    ensures
      var d := Decode(crc, buf, offset);
      offset < d.next <= |buf| && LaidOut(crc, buf[offset..d.next], d.frame)
  {
    EncodeDecode(crc, buf, offset);
    EncodeLaidOut(crc, Decode(crc, buf, offset).frame);
  }

  /** A frame whose payload has been replaced by another of the same length decodes if and only if the checksum is the same. */
  lemma PayloadCovered(crc: Checksum, f: Frame, other: Bytes)
    requires Encodable(f) && |other| == |f.payload|
    ensures
      var e := Encode(crc, f);
      Decode(crc, e[..24] + other, 0).Intact? <==>
      crc(other, crc(e[..20], 0) % U32) % U32 == crc(f.payload, crc(e[..20], 0) % U32) % U32
  {
    var e, g := Encode(crc, f), f.(payload := other);
    var b := e[..24] + other;
    EncodeLaidOut(crc, f);
    assert b[..20] == e[..20] && b[24..] == other;
    assert U32At(b, 20) == U32At(e, 20);
    if Decode(crc, b, 0).Intact? {
      DecodeLaidOut(crc, b, 0);
      var d := Decode(crc, b, 0);
      var frame := b[0..d.next];
      assert U32At(frame, 16) == U32At(b, 16) == U32At(e, 16) == |other|;
      assert frame == b && frame[24..] == other;
    }
    if crc(other, crc(e[..20], 0) % U32) % U32 == crc(f.payload, crc(e[..20], 0) % U32) % U32 {
      EncodedFields(crc, f);
      assert Prefix(g) == Prefix(f);
      assert Encode(crc, g) == b by {
        assert e[..24] == e[..20] + e[20..24];
        assert e[20..24] == Le(Crc(crc, Prefix(f), f.payload), 4);
      }
      assert b[0..] == b + [];
      DecodeEncode(crc, b, 0, g, []);
    }
  }

  // ----------------------------------------------------------------- payloads

  /** A length of four bytes, and that many bytes. */
  predicate PackedAt(p: Bytes, off: nat, b: Bytes) {
    off + 4 + |b| <= |p| && U32At(p, off) == |b| && p[off + 4..off + 4 + |b|] == b
  }

  lemma PackAt(p: Bytes, off: nat, b: Bytes, rest: Bytes)
    requires |b| < U32 && off <= |p| && p[off..] == Pack(b) + rest
    ensures PackedAt(p, off, b) && p[off + 4 + |b|..] == rest
  {
    assert Pack(b) + rest == Le(|b|, 4) + (b + rest);
    Cut(p, off, Le(|b|, 4), b + rest);
    Cut(p, off + 4, b, rest);
    Widths();
    WordLe(p, off, |b|, 4);
    WordAt4(p, off);
  }

  lemma {:induction false} FlatAt(ws: seq<Float32>, i: nat)
    requires i < |ws|
    ensures WordOf(Flat(ws), 4 * i) == ws[i]
    decreases i
  {
    if i > 0 {
      FlatAt(ws[1..], i - 1);
      assert Flat(ws)[4..] == Flat(ws[1..]);
      assert WordOf(Flat(ws), 4 * i) == WordOf(Flat(ws)[4..], 4 * (i - 1));
    }
  }

  /** The dimension in four bytes, and four bytes per component. */
  predicate VectorLaidAt(p: Bytes, off: nat, ws: seq<Float32>) {
    && off + 4 + 4 * |ws| <= |p| && U32At(p, off) == |ws|
    && Components(p, off + 4, ws)
  }

  predicate Components(p: Bytes, off: nat, ws: seq<Float32>)
    requires off + 4 * |ws| <= |p|
  {
    forall i | 0 <= i < |ws| :: Component(p, off, ws, i)
  }

  predicate Component(p: Bytes, off: nat, ws: seq<Float32>, i: nat)
    requires i < |ws| && off + 4 * |ws| <= |p|
  {
    WordOf(p, off + 4 * i) == ws[i]
  }

  function WordOf(p: Bytes, off: nat): Bytes
    requires off + 4 <= |p|
  {
    p[off..off + 4]
  }

  lemma SubSlice(p: Bytes, off: nat, f: Bytes, i: nat)
    requires off + |f| <= |p| && p[off..off + |f|] == f && i + 4 <= |f|
    ensures WordOf(p, off + i) == WordOf(f, i)
  {
    assert forall x | 0 <= x < |f| :: f[x] == p[off..off + |f|][x] == p[off + x];
  }

  lemma FlatWord(p: Bytes, off: nat, ws: seq<Float32>, f: Bytes, i: nat)
    requires i < |ws| && f == Flat(ws) && off + |f| <= |p| && p[off..off + |f|] == f
    ensures Component(p, off, ws, i)
  {
    FlatAt(ws, i);
    SubSlice(p, off, f, 4 * i);
  }

  lemma FlatWords(p: Bytes, off: nat, ws: seq<Float32>, f: Bytes)
    requires f == Flat(ws) && off + |f| <= |p| && p[off..off + |f|] == f
    ensures Components(p, off, ws)
  {
    forall i | 0 <= i < |ws| ensures Component(p, off, ws, i) {
      FlatWord(p, off, ws, f, i);
    }
  }

  lemma LengthAt(p: Bytes, off: nat, k: nat, n: Bytes)
    requires k < U32 && n == Le(k, 4) && off + 4 <= |p| && p[off..off + 4] == n
    ensures U32At(p, off) == k
  {
    Widths();
    WordLe(p, off, k, 4);
    WordAt4(p, off);
  }

  lemma VectorBytes(p: Bytes, off: nat, ws: seq<Float32>, n: Bytes, f: Bytes)
    requires |ws| < U32 && n == Le(|ws|, 4) && f == Flat(ws)
    requires off + 4 + |f| <= |p| && p[off..off + 4] == n && p[off + 4..off + 4 + |f|] == f
    ensures VectorLaidAt(p, off, ws)
  {
    LengthAt(p, off, |ws|, n);
    FlatWords(p, off + 4, ws, f);
  }

  lemma CutTwice(p: Bytes, off: nat, n: Bytes, f: Bytes, rest: Bytes)
    requires |n| == 4 && off <= |p| && p[off..] == n + (f + rest)
    ensures off + 4 + |f| <= |p| && p[off..off + 4] == n && p[off + 4..off + 4 + |f|] == f && p[off + 4 + |f|..] == rest
  {
    Cut(p, off, n, f + rest);
    Cut(p, off + 4, f, rest);
  }

  lemma VectorAtOffset(p: Bytes, off: nat, ws: seq<Float32>, n: Bytes, f: Bytes, rest: Bytes)
    requires |ws| < U32 && n == Le(|ws|, 4) && f == Flat(ws) && off <= |p| && p[off..] == n + (f + rest)
    ensures VectorLaidAt(p, off, ws) && p[off + 4 + 4 * |ws|..] == rest
  {
    CutTwice(p, off, n, f, rest);
    VectorBytes(p, off, ws, n, f);
  }

  /** Metadata, text, and a last byte that says whether there is a text. */
  predicate TailLaidOut(p: Bytes, off: nat, m: Bytes, t: Bytes, flag: Byte) {
    var text := off + 4 + |m|;
    && PackedAt(p, off, m) && PackedAt(p, text, t)
    && |p| == text + 4 + |t| + 1 && p[|p| - 1] == flag
  }

  /** The payload of a put: id, vector, and the rest. */
  predicate PutLaidOut(p: Bytes, id: Bytes, ws: seq<Float32>, m: Bytes, t: Bytes, flag: Byte) {
    && PackedAt(p, 0, id) && VectorLaidAt(p, 4 + |id|, ws)
    && TailLaidOut(p, 4 + |id| + 4 + 4 * |ws|, m, t, flag)
  }

  lemma TailLayout(p: Bytes, off: nat, m: Bytes, t: Bytes, flag: Byte)
    requires |m| < U32 && |t| < U32 && off <= |p| && p[off..] == Pack(m) + (Pack(t) + [flag])
    ensures TailLaidOut(p, off, m, t, flag)
  {
    PackAt(p, off, m, Pack(t) + [flag]);
    PackAt(p, off + 4 + |m|, t, [flag]);
    assert p[off + 4 + |m| + 4 + |t|..][0] == flag;
  }

  lemma HeadLayout(p: Bytes, id: Bytes, ws: seq<Float32>, n: Bytes, f: Bytes, rest: Bytes)
    requires |id| < U32 && |ws| < U32 && n == Le(|ws|, 4) && f == Flat(ws) && p == Pack(id) + (n + (f + rest))
    ensures PackedAt(p, 0, id) && VectorLaidAt(p, 4 + |id|, ws) && p[4 + |id| + 4 + 4 * |ws|..] == rest
  {
    assert p[0..] == p;
    PackAt(p, 0, id, n + (f + rest));
    VectorAtOffset(p, 4 + |id|, ws, n, f, rest);
  }

  function TextFlag(c: Contents): Byte {
    if c.text.Some? then 1 else 0
  }

  function TailBytes(c: Contents): Bytes
    requires |c.metadata| < U32 && |TextBytes(c)| < U32
  {
    Pack(c.metadata) + (Pack(TextBytes(c)) + [TextFlag(c)])
  }

  lemma PutGrouped(id: Bytes, c: Contents)
    requires Packable(id, c)
    ensures EncodePut(id, c) == Pack(id) + (Le(|c.vector|, 4) + (Flat(c.vector) + TailBytes(c)))
  {
    Regroup(Pack(id), Le(|c.vector|, 4), Flat(c.vector), Pack(c.metadata), Pack(TextBytes(c)), [TextFlag(c)]);
  }

  lemma PutHead(id: Bytes, c: Contents)
    requires Packable(id, c)
    ensures PackedAt(EncodePut(id, c), 0, id) && VectorLaidAt(EncodePut(id, c), 4 + |id|, c.vector)
  {
    PutGrouped(id, c);
    HeadLayout(EncodePut(id, c), id, c.vector, Le(|c.vector|, 4), Flat(c.vector), TailBytes(c));
  }

  lemma PutTail(id: Bytes, c: Contents)
    requires Packable(id, c)
    ensures TailLaidOut(EncodePut(id, c), 4 + |id| + 4 + 4 * |c.vector|, c.metadata, TextBytes(c), TextFlag(c))
  {
    var p, o := EncodePut(id, c), 4 + |id| + 4 + 4 * |c.vector|;
    assert o <= |p| && p[o..] == TailBytes(c) by {
      PutGrouped(id, c);
      HeadLayout(p, id, c.vector, Le(|c.vector|, 4), Flat(c.vector), TailBytes(c));
    }
    TailLayout(p, o, c.metadata, TextBytes(c), TextFlag(c));
  }

  lemma PutLayout(id: Bytes, c: Contents)
    requires Packable(id, c)
    ensures
      var p := EncodePut(id, c);
      match c.text
      case Some(t) => PutLaidOut(p, id, c.vector, c.metadata, t, 1)
      case None => PutLaidOut(p, id, c.vector, c.metadata, [], 0)
  {
    PutHead(id, c);
    PutTail(id, c);
  }

  lemma DeleteLayout(id: Bytes)
    requires |id| < U32
    ensures PackedAt(EncodeDelete(id), 0, id) && |EncodeDelete(id)| == 4 + |id|
  {
    assert EncodeDelete(id)[0..] == Pack(id) + [];
    PackAt(EncodeDelete(id), 0, id, []);
  }
}
