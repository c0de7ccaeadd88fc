/** The payloads of put and delete frames (storage/codec.py); text, JSON and floats are opaque bytes. */
module Payload {
  import opened Options
  import opened Codec

  type Float32 = w: Bytes | |w| == 4 witness [0, 0, 0, 0]

  datatype Contents = Contents(vector: seq<Float32>, metadata: Bytes, text: Option<Bytes>)

  function Pack(b: Bytes): (bs: Bytes)
    requires |b| < U32
    ensures |bs| == 4 + |b|
  {
    Le(|b|, 4) + b
  }

  /** Python slices do not fail: a length field may point beyond the end. */
  function Slice(buf: Bytes, from: nat, to: nat): Bytes
    requires from <= to
  {
    buf[Min(from, |buf|)..Min(to, |buf|)]
  }

  function Unpack(buf: Bytes, off: nat): Option<(Bytes, nat)> {
    if off + 4 > |buf| then None
    else
      var n := Word(buf, off, 4);
      Some((Slice(buf, off + 4, off + 4 + n), off + 4 + n))
  }

  /** Words laid out one after the other. */
  function Flat(ws: seq<Float32>): (bs: Bytes)
    ensures |bs| == 4 * |ws|
  {
    if ws == [] then [] else ws[0] + Flat(ws[1..])
  }

  function Floats(buf: Bytes, off: nat, n: nat): (ws: seq<Float32>)
    requires off + 4 * n <= |buf|
    decreases n
  {
    if n == 0 then [] else [buf[off..off + 4]] + Floats(buf, off + 4, n - 1)
  }

  lemma {:induction false} FloatsFlat(buf: Bytes, off: nat, ws: seq<Float32>)
    requires off + 4 * |ws| <= |buf| && buf[off..off + 4 * |ws|] == Flat(ws)
    ensures Floats(buf, off, |ws|) == ws
    decreases |ws|
  {
    if ws != [] {
      var f := buf[off..off + 4 * |ws|];
      assert buf[off..off + 4] == f[..4] == ws[0];
      assert buf[off + 4..off + 4 + 4 * |ws[1..]|] == f[4..] == Flat(ws[1..]);
      FloatsFlat(buf, off + 4, ws[1..]);
    }
  }

  predicate Packable(id: Bytes, c: Contents) {
    |id| < U32 && |c.vector| < U32 && |c.metadata| < U32 && (c.text.Some? ==> |c.text.value| < U32)
  }

  function TextBytes(c: Contents): Bytes {
    match c.text case Some(t) => t case None => []
  }

  function EncodePut(id: Bytes, c: Contents): Bytes
    requires Packable(id, c)
  {
    Pack(id) + Le(|c.vector|, 4) + Flat(c.vector) + Pack(c.metadata) + Pack(TextBytes(c)) + [if c.text.Some? then 1 else 0]
  }

  /** The dimension, then that many words. */
  function UnpackVector(p: Bytes, off: nat): Option<(seq<Float32>, nat)> {
    if off + 4 > |p| then None
    else
      var end := off + 4 + Word(p, off, 4) * 4;
      if end > |p| then None else Some((Floats(p, off + 4, Word(p, off, 4)), end))
  }

  /** The metadata, the text, and the byte that says whether there was a text. */
  function UnpackTail(p: Bytes, off: nat): Option<(Bytes, Option<Bytes>)> {
    match Unpack(p, off)
    case None => None
    case Some((metadata, o3)) =>
      match Unpack(p, o3)
      case None => None
      case Some((text, o4)) =>
        if o4 >= |p| then None else Some((metadata, if p[o4] != 0 then Some(text) else None))
  }

  /** `None` stands for the exceptions that malformed payloads raise. */
  function DecodePut(p: Bytes): Option<(Bytes, Contents)> {
    match Unpack(p, 0)
    case None => None
    case Some((id, o1)) =>
      match UnpackVector(p, o1)
      case None => None
      case Some((vector, o2)) =>
        match UnpackTail(p, o2)
        case None => None
        case Some((metadata, text)) => Some((id, Contents(vector, metadata, text)))
  }

  function EncodeDelete(id: Bytes): Bytes
    requires |id| < U32
  {
    Pack(id)
  }

  function DecodeDelete(p: Bytes): Option<Bytes> {
    match Unpack(p, 0) case None => None case Some((id, _)) => Some(id)
  }

  lemma Cut(p: Bytes, off: nat, b: Bytes, rest: Bytes)
    requires off <= |p| && p[off..] == b + rest
    ensures off + |b| <= |p| && p[off..off + |b|] == b && p[off + |b|..] == rest
  {
    assert |p| - off == |b| + |rest|;
    assert p[off..off + |b|] == p[off..][..|b|] && p[off + |b|..] == p[off..][|b|..];
  }

  lemma UnpackPack(p: Bytes, off: nat, b: Bytes, rest: Bytes)
    requires |b| < U32 && off <= |p| && p[off..] == Pack(b) + rest
    ensures off + 4 + |b| <= |p| && p[off + 4 + |b|..] == rest
    ensures Unpack(p, off) == Some((b, off + 4 + |b|))
  {
    assert Pack(b) + rest == Le(|b|, 4) + (b + rest);
    Cut(p, off, Le(|b|, 4), b + rest);
    Cut(p, off + 4, b, rest);
    Widths();
    WordLe(p, off, |b|, 4);
  }

  lemma VectorAt(p: Bytes, off: nat, ws: seq<Float32>)
    requires off + 4 + 4 * |ws| <= |p| && Word(p, off, 4) == |ws| && Floats(p, off + 4, |ws|) == ws
    ensures UnpackVector(p, off) == Some((ws, off + 4 + 4 * |ws|))
  {}

  lemma UnpackWords(p: Bytes, off: nat, ws: seq<Float32>, n: Bytes, f: Bytes, rest: Bytes)
    requires |ws| < U32 && n == Le(|ws|, 4) && f == Flat(ws) && off <= |p| && p[off..] == n + (f + rest)
    ensures off + 4 + |f| <= |p| && p[off + 4 + |f|..] == rest
    ensures UnpackVector(p, off) == Some((ws, off + 4 + 4 * |ws|))
  {
    Cut(p, off, n, f + rest);
    Cut(p, off + 4, f, rest);
    Widths();
    WordLe(p, off, |ws|, 4);
    FloatsFlat(p, off + 4, ws);
    VectorAt(p, off, ws);
  }

  lemma UnpackTailAt(p: Bytes, off: nat, m: Bytes, t: Bytes, flag: Byte)
    requires |m| < U32 && |t| < U32 && off <= |p| && p[off..] == Pack(m) + (Pack(t) + [flag])
    ensures UnpackTail(p, off) == Some((m, if flag != 0 then Some(t) else None))
  {
    UnpackPack(p, off, m, Pack(t) + [flag]);
    var o3 := off + 4 + |m|;
    UnpackPack(p, o3, t, [flag]);
    assert p[o3 + 4 + |t|] == p[o3 + 4 + |t|..][0];
  }

  lemma UnpackHead(p: Bytes, id: Bytes, ws: seq<Float32>, n: Bytes, f: Bytes, rest: Bytes)
    requires |id| < U32 && |ws| < U32 && n == Le(|ws|, 4) && f == Flat(ws) && p == Pack(id) + (n + (f + rest))
    ensures
      var o1 := 4 + |id|;
      var o2 := o1 + 4 + |f|;
      Unpack(p, 0) == Some((id, o1)) && UnpackVector(p, o1) == Some((ws, o2)) && o2 <= |p| && p[o2..] == rest
  {
    assert p[0..] == p;
    UnpackPack(p, 0, id, n + (f + rest));
    UnpackWords(p, 4 + |id|, ws, n, f, rest);
  }

  lemma DecodeFields(p: Bytes, id: Bytes, o1: nat, ws: seq<Float32>, o2: nat, metadata: Bytes, text: Option<Bytes>)
    requires Unpack(p, 0) == Some((id, o1)) && UnpackVector(p, o1) == Some((ws, o2)) && UnpackTail(p, o2) == Some((metadata, text))
    ensures DecodePut(p) == Some((id, Contents(ws, metadata, text)))
  {}

  lemma DecodeRest(p: Bytes, id: Bytes, o1: nat, ws: seq<Float32>, o2: nat, m: Bytes, t: Bytes, flag: Byte)
    requires |m| < U32 && |t| < U32 && Unpack(p, 0) == Some((id, o1)) && UnpackVector(p, o1) == Some((ws, o2))
    requires o2 <= |p| && p[o2..] == Pack(m) + (Pack(t) + [flag])
    ensures DecodePut(p) == Some((id, Contents(ws, m, if flag != 0 then Some(t) else None)))
  {
    UnpackTailAt(p, o2, m, t, flag);
    DecodeFields(p, id, o1, ws, o2, m, if flag != 0 then Some(t) else None);
  }

  lemma DecodeParts(p: Bytes, id: Bytes, ws: seq<Float32>, n: Bytes, f: Bytes, rest: Bytes, m: Bytes, t: Bytes, flag: Byte)
    requires |id| < U32 && |ws| < U32 && n == Le(|ws|, 4) && f == Flat(ws) && p == Pack(id) + (n + (f + rest))
    requires |m| < U32 && |t| < U32 && rest == Pack(m) + (Pack(t) + [flag])
    ensures DecodePut(p) == Some((id, Contents(ws, m, if flag != 0 then Some(t) else None)))
  {
    var o1 := 4 + |id|;
    var o2 := o1 + 4 + |f|;
    assert Unpack(p, 0) == Some((id, o1)) && UnpackVector(p, o1) == Some((ws, o2)) && o2 <= |p| && p[o2..] == rest by {
      UnpackHead(p, id, ws, n, f, rest);
    }
    DecodeRest(p, id, o1, ws, o2, m, t, flag);
  }

  lemma Regroup(a: Bytes, n: Bytes, v: Bytes, m: Bytes, x: Bytes, flag: Bytes)
    ensures a + n + v + m + x + flag == a + (n + (v + (m + (x + flag))))
  {}

  /** Decoding the payload of a put gives back the document id and the contents. */
  lemma PutRoundTrip(id: Bytes, c: Contents)
    requires Packable(id, c)
    ensures DecodePut(EncodePut(id, c)) == Some((id, c))
  {
    var n, f, m, t := Le(|c.vector|, 4), Flat(c.vector), c.metadata, TextBytes(c);
    var flag: Byte := if c.text.Some? then 1 else 0;
    Regroup(Pack(id), n, f, Pack(m), Pack(t), [flag]);
    DecodeParts(EncodePut(id, c), id, c.vector, n, f, Pack(m) + (Pack(t) + [flag]), m, t, flag);
  }

  lemma DeleteRoundTrip(id: Bytes)
    requires |id| < U32
    ensures DecodeDelete(EncodeDelete(id)) == Some(id)
  {
    assert EncodeDelete(id)[0..] == Pack(id) + [];
    UnpackPack(EncodeDelete(id), 0, id, []);
  }
}
