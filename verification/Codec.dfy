/** Binary framing of the write-ahead log and the payload of a put (storage/codec.py). */
module Codec {
  import opened Options

  type Byte = x: int | 0 <= x < 256
  type Bytes = seq<Byte>

  const U16: nat := 0x1_0000
  const U32: nat := 0x1_0000_0000
  const U64: nat := 0x1_0000_0000_0000_0000

  // ------------------------------------------------------- little-endian words

  function Pow256(k: nat): nat {
    if k == 0 then 1 else 256 * Pow256(k - 1)
  }

  function Le(n: nat, k: nat): (bs: Bytes)
    ensures |bs| == k
  {
    if k == 0 then [] else [n % 256] + Le(n / 256, k - 1)
  }

  /** The `k`-byte word that starts at `off`. */
  function Word(buf: Bytes, off: nat, k: nat): (n: nat)
    requires off + k <= |buf|
    decreases k
  {
    if k == 0 then 0 else buf[off] + 256 * Word(buf, off + 1, k - 1)
  }

  lemma {:induction false} WordLe(buf: Bytes, off: nat, n: nat, k: nat)
    requires n < Pow256(k) && off + k <= |buf| && buf[off..off + k] == Le(n, k)
    ensures Word(buf, off, k) == n
    decreases k
  {
    if k > 0 {
      assert buf[off] == buf[off..off + k][0];
      assert buf[off + 1..off + 1 + (k - 1)] == buf[off..off + k][1..];
      WordLe(buf, off + 1, n / 256, k - 1);
    }
  }

  lemma {:induction false} LeWord(buf: Bytes, off: nat, k: nat)
    requires off + k <= |buf|
    ensures Word(buf, off, k) < Pow256(k) && Le(Word(buf, off, k), k) == buf[off..off + k]
    decreases k
  {
    if k > 0 {
      LeWord(buf, off + 1, k - 1);
      var n := Word(buf, off, k);
      assert n % 256 == buf[off] && n / 256 == Word(buf, off + 1, k - 1);
      assert buf[off..off + k] == [buf[off]] + buf[off + 1..off + 1 + (k - 1)];
    }
  }

  lemma Widths()
    ensures Pow256(2) == U16 && Pow256(4) == U32 && Pow256(8) == U64
  {
    assert Pow256(3) == 256 * Pow256(2) && Pow256(2) == 65536;
    assert Pow256(6) == 256 * Pow256(5) && Pow256(5) == 256 * Pow256(4);
  }

  // ------------------------------------------------------------------- frames

  datatype Kind = Put | Delete | Checkpoint | TxnCommit

  datatype Frame = Frame(kind: Kind, seqno: nat, payload: Bytes, flags: Byte)

  const MAGIC: Bytes := [65, 87, 65, 76]
  const VERSION: nat := 1
  const HEADER_SIZE: nat := 24

  function Code(k: Kind): Byte {
    match k case Put => 1 case Delete => 2 case Checkpoint => 3 case TxnCommit => 4
  }

  function KindOf(code: Byte): Option<Kind> {
    if code == 1 then Some(Put) else if code == 2 then Some(Delete)
    else if code == 3 then Some(Checkpoint) else if code == 4 then Some(TxnCommit) else None
  }

  /** A checksum that can be continued: data and a start value to a new value.  Nothing else is assumed. */
  type Checksum = (Bytes, nat) -> nat

  /** What the header fields can hold. */
  predicate Encodable(f: Frame) {
    f.seqno < U64 && |f.payload| < U32
  }

  function Prefix(f: Frame): (bs: Bytes)
    ensures |bs| == HEADER_SIZE - 4
  {
    MAGIC + Le(VERSION, 2) + [Code(f.kind)] + [f.flags] + Le(f.seqno, 8) + Le(|f.payload|, 4)
  }

  /** The checksum covers the header up to itself, and the payload. */
  function Crc(crc: Checksum, prefix: Bytes, payload: Bytes): nat {
    crc(payload, crc(prefix, 0) % U32) % U32
  }

  function Encode(crc: Checksum, f: Frame): (bs: Bytes)
    requires Encodable(f)
    ensures |bs| == HEADER_SIZE + |f.payload|
  {
    Prefix(f) + Le(Crc(crc, Prefix(f), f.payload), 4) + f.payload
  }

  datatype Decoded = Intact(frame: Frame, next: nat) | Corrupt

  /** Decodes the frame that starts at `offset`, checking it in the order the source does. */
  function Decode(crc: Checksum, buf: Bytes, offset: nat): Decoded {
    var body := offset + HEADER_SIZE;
    if body > |buf| then Corrupt
    else if buf[offset..offset + 4] != MAGIC then Corrupt
    else if Word(buf, offset + 4, 2) != VERSION then Corrupt
    else
      var end := body + Word(buf, offset + 16, 4);
      if end > |buf| then Corrupt
      else if Crc(crc, buf[offset..body - 4], buf[body..end]) != Word(buf, offset + 20, 4) then Corrupt
      else match KindOf(buf[offset + 6])
        case None => Corrupt
        case Some(kind) => Intact(Frame(kind, Word(buf, offset + 8, 8), buf[body..end], buf[offset + 7]), end)
  }

  /** The fields of an encoded frame sit where the decoder looks for them. */
  lemma EncodedFields(crc: Checksum, f: Frame)
    requires Encodable(f)
    ensures
      var e := Encode(crc, f);
      && e[..4] == MAGIC && e[..20] == Prefix(f) && e[6] == Code(f.kind) && e[7] == f.flags && e[24..] == f.payload
      && Word(e, 4, 2) == VERSION && Word(e, 8, 8) == f.seqno && Word(e, 16, 4) == |f.payload|
      && Word(e, 20, 4) == Crc(crc, Prefix(f), f.payload)
  {
    var e := Encode(crc, f);
    Widths();
    WordLe(e, 4, VERSION, 2);
    WordLe(e, 8, f.seqno, 8);
    WordLe(e, 16, |f.payload|, 4);
    WordLe(e, 20, Crc(crc, Prefix(f), f.payload), 4);
  }

  lemma {:induction false} SameWord(a: Bytes, i: nat, b: Bytes, j: nat, k: nat)
    requires i + k <= |a| && j + k <= |b| && a[i..i + k] == b[j..j + k]
    ensures Word(a, i, k) == Word(b, j, k)
    decreases k
  {
    if k > 0 {
      assert a[i] == a[i..i + k][0] && b[j] == b[j..j + k][0];
      assert a[i + 1..i + 1 + (k - 1)] == a[i..i + k][1..] && b[j + 1..j + 1 + (k - 1)] == b[j..j + k][1..];
      SameWord(a, i + 1, b, j + 1, k - 1);
    }
  }

  lemma SameField(buf: Bytes, offset: nat, e: Bytes, i: nat, k: nat)
    requires offset + HEADER_SIZE <= |buf| && |e| >= HEADER_SIZE && i + k <= HEADER_SIZE
    requires buf[offset..offset + HEADER_SIZE] == e[..HEADER_SIZE]
    ensures Word(buf, offset + i, k) == Word(e, i, k) && buf[offset + i..offset + i + k] == e[i..i + k]
  {
    var h := buf[offset..offset + HEADER_SIZE];
    var a, b := buf[offset + i..offset + i + k], h[i..i + k];
    assert forall x | 0 <= x < k :: a[x] == b[x];
    assert a == b;
    var p := e[..HEADER_SIZE];
    var d := p[i..i + k];
    assert forall x | 0 <= x < k :: e[i..i + k][x] == d[x];
    assert e[i..i + k] == d;
    SameWord(buf, offset + i, e, i, k);
  }

  /** The header fields of `buf` at `offset` are those of `e` if it starts with the header of `e` there. */
  lemma SameHeader(buf: Bytes, offset: nat, e: Bytes)
    requires offset + HEADER_SIZE <= |buf| && |e| >= HEADER_SIZE
    requires buf[offset..offset + HEADER_SIZE] == e[..HEADER_SIZE]
    ensures Word(buf, offset + 4, 2) == Word(e, 4, 2) && Word(buf, offset + 8, 8) == Word(e, 8, 8)
    ensures Word(buf, offset + 16, 4) == Word(e, 16, 4) && Word(buf, offset + 20, 4) == Word(e, 20, 4)
    ensures buf[offset + 6] == e[6] && buf[offset + 7] == e[7] && buf[offset..offset + 4] == e[..4] && buf[offset..offset + 20] == e[..20]
  {
    var h := buf[offset..offset + HEADER_SIZE];
    assert h[6] == e[6] && h[7] == e[7];
    SameField(buf, offset, e, 0, 4);
    SameField(buf, offset, e, 0, 20);
    SameField(buf, offset, e, 4, 2);
    SameField(buf, offset, e, 8, 8);
    SameField(buf, offset, e, 16, 4);
    SameField(buf, offset, e, 20, 4);
  }

  /** Decoding where an encoded frame starts yields the frame and the offset after it, whatever surrounds it. */
  lemma DecodeEncode(crc: Checksum, buf: Bytes, offset: nat, f: Frame, rest: Bytes)
    requires Encodable(f) && offset <= |buf| && buf[offset..] == Encode(crc, f) + rest
    ensures
      var next := offset + |Encode(crc, f)|;
      next <= |buf| && buf[next..] == rest && Decode(crc, buf, offset) == Intact(f, next)
  {
    var e := Encode(crc, f);
    assert |buf| - offset == |e| + |rest|;
    EncodedFields(crc, f);
    assert buf[offset..offset + HEADER_SIZE] == buf[offset..][..HEADER_SIZE] == e[..HEADER_SIZE];
    SameHeader(buf, offset, e);
    assert buf[offset + 24..offset + |e|] == buf[offset..][24..|e|] == e[24..];
    assert buf[offset + |e|..] == buf[offset..][|e|..];
  }

  /** Bytes whose header fields say what `f` holds are the encoding of `f`. */
  lemma Reencoded(crc: Checksum, buf: Bytes, offset: nat, f: Frame, end: nat)
    requires end == offset + HEADER_SIZE + |f.payload| <= |buf| && buf[offset + HEADER_SIZE..end] == f.payload
    requires buf[offset..offset + 4] == MAGIC && buf[offset + 4..offset + 6] == Le(VERSION, 2)
    requires buf[offset + 6] == Code(f.kind) && buf[offset + 7] == f.flags
    requires buf[offset + 8..offset + 16] == Le(f.seqno, 8) && buf[offset + 16..offset + 20] == Le(|f.payload|, 4)
    requires buf[offset + 20..offset + 24] == Le(Crc(crc, buf[offset..offset + 20], f.payload), 4) && Encodable(f)
    ensures buf[offset..end] == Encode(crc, f)
  {
    var o := offset;
    Join(buf, o, o + 4, o + 6);
    Join(buf, o, o + 6, o + 7);
    Join(buf, o, o + 7, o + 8);
    Join(buf, o, o + 8, o + 16);
    Join(buf, o, o + 16, o + 20);
    assert buf[o + 6..o + 7] == [buf[o + 6]] && buf[o + 7..o + 8] == [buf[o + 7]];
    assert buf[o..o + 20] == Prefix(f);
    Join(buf, o, o + 20, o + 24);
    Join(buf, o, o + 24, end);
  }

  lemma Join(buf: Bytes, i: nat, j: nat, k: nat)
    requires i <= j <= k <= |buf|
    ensures buf[i..k] == buf[i..j] + buf[j..k]
  {}

  /** A frame that decodes was encoded: the bytes it was read from are exactly its encoding. */
  lemma EncodeDecode(crc: Checksum, buf: Bytes, offset: nat)
    requires Decode(crc, buf, offset).Intact?
    ensures
      var d := Decode(crc, buf, offset);
      && Encodable(d.frame) && offset < d.next <= |buf|
      && buf[offset..d.next] == Encode(crc, d.frame)
  {
    var d := Decode(crc, buf, offset);
    Widths();
    LeWord(buf, offset + 4, 2);
    LeWord(buf, offset + 8, 8);
    LeWord(buf, offset + 16, 4);
    LeWord(buf, offset + 20, 4);
    Reencoded(crc, buf, offset, d.frame, d.next);
  }

  /** A frame cut off anywhere, at the end of the file, does not decode. */
  lemma DecodeTorn(crc: Checksum, buf: Bytes, offset: nat, f: Frame)
    requires Encodable(f) && offset <= |buf| && buf[offset..] < Encode(crc, f)
    ensures Decode(crc, buf, offset) == Corrupt
  {
    var e := Encode(crc, f);
    if offset + HEADER_SIZE <= |buf| {
      EncodedFields(crc, f);
      assert buf[offset..offset + HEADER_SIZE] == buf[offset..][..HEADER_SIZE] == e[..HEADER_SIZE];
      SameHeader(buf, offset, e);
    }
  }
}
