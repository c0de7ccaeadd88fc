/** The append-only write-ahead log and its crash recovery (storage/wal.py). */
module Wal {
  import opened Options
  import opened Codec

  /** How frames become bytes and back.  Nothing below depends on more than the three laws. */
  datatype Format = Format(encode: Frame --> Bytes, decode: (Bytes, nat) -> Decoded)

  /** A frame is decoded where its encoding starts, whatever follows it. */
  ghost predicate WritesAt(c: Format, buf: Bytes, offset: nat, f: Frame, rest: Bytes)
    requires c.encode.requires(f)
  {
    offset <= |buf| && buf[offset..] == c.encode(f) + rest ==> c.decode(buf, offset) == Intact(f, offset + |c.encode(f)|)
  }

  /** What decodes was encoded. */
  ghost predicate ReadsAt(c: Format, buf: Bytes, offset: nat) {
    var d := c.decode(buf, offset);
    d.Intact? ==>
      && Encodable(d.frame) && c.encode.requires(d.frame)
      && offset < d.next <= |buf| && buf[offset..d.next] == c.encode(d.frame)
  }

  /** A proper part of an encoded frame, at the end of the file, does not decode. */
  ghost predicate DetectsAt(c: Format, buf: Bytes, offset: nat, f: Frame)
    requires c.encode.requires(f)
  {
    offset <= |buf| && buf[offset..] < c.encode(f) ==> c.decode(buf, offset) == Corrupt
  }

  /** Every encodable frame has an encoding. */
  ghost predicate Total(c: Format) {
    forall f: Frame :: Encodable(f) ==> c.encode.requires(f)
  }

  /** Decoding a frame moves on, within the file. */
  ghost predicate Progress(c: Format) {
    forall buf, offset: nat :: var d := c.decode(buf, offset); d.Intact? ==> offset < d.next <= |buf|
  }

  ghost predicate Lawful(c: Format) {
    && Total(c) && Progress(c)
    && (forall buf, offset: nat, f: Frame, rest | Encodable(f) :: WritesAt(c, buf, offset, f, rest))
    && (forall buf, offset: nat :: ReadsAt(c, buf, offset))
    && (forall buf, offset: nat, f: Frame | Encodable(f) :: DetectsAt(c, buf, offset, f))
  }

  /** The frame format of `Codec`, for a given checksum. */
  function Framed(crc: Checksum): Format {
    Format(f requires Encodable(f) => Encode(crc, f), (buf, offset: nat) => Decode(crc, buf, offset))
  }

  /** The frame format is lawful whatever function the checksum is. */
  lemma FramedLawful(crc: Checksum)
    ensures Lawful(Framed(crc))
  {
    var c := Framed(crc);
    forall buf, offset: nat
      ensures ReadsAt(c, buf, offset) && (c.decode(buf, offset).Intact? ==> offset < c.decode(buf, offset).next <= |buf|)
    {
      FramedReads(crc, buf, offset);
    }
    forall buf, offset: nat, f: Frame, rest | Encodable(f) ensures WritesAt(c, buf, offset, f, rest) {
      FramedWrites(crc, buf, offset, f, rest);
    }
    forall buf, offset: nat, f: Frame | Encodable(f) ensures DetectsAt(c, buf, offset, f) {
      FramedDetects(crc, buf, offset, f);
    }
  }

  lemma FramedWrites(crc: Checksum, buf: Bytes, offset: nat, f: Frame, rest: Bytes)
    requires Encodable(f)
    ensures WritesAt(Framed(crc), buf, offset, f, rest)
  {
    if offset <= |buf| && buf[offset..] == Encode(crc, f) + rest {
      DecodeEncode(crc, buf, offset, f, rest);
    }
  }

  lemma FramedReads(crc: Checksum, buf: Bytes, offset: nat)
    ensures ReadsAt(Framed(crc), buf, offset)
  {
    if Decode(crc, buf, offset).Intact? {
      EncodeDecode(crc, buf, offset);
    }
  }

  lemma FramedDetects(crc: Checksum, buf: Bytes, offset: nat, f: Frame)
    requires Encodable(f)
    ensures DetectsAt(Framed(crc), buf, offset, f)
  {
    if offset <= |buf| && buf[offset..] < Encode(crc, f) {
      DecodeTorn(crc, buf, offset, f);
    }
  }

  // ------------------------------------------------------------------ replay

  predicate AllEncodable(fs: seq<Frame>) {
    forall f <- fs :: Encodable(f)
  }

  /** The file that holds exactly these frames. */
  ghost function Image(c: Format, fs: seq<Frame>): Bytes
    requires Total(c) && AllEncodable(fs)
  {
    if fs == [] then [] else c.encode(fs[0]) + Image(c, fs[1..])
  }

  /** The intact frames from `offset` on, and where they end. */
  ghost function ReplayFrom(c: Format, data: Bytes, offset: nat): (seq<Frame>, nat)
    requires Progress(c)
    decreases |data| - Min(offset, |data|)
  {
    if offset >= |data| then ([], offset)
    else
      match c.decode(data, offset)
      case Corrupt => ([], offset)
      case Intact(f, next) =>
        var (fs, end) := ReplayFrom(c, data, next);
        ([f] + fs, end)
  }

  ghost function Frames(c: Format, data: Bytes): seq<Frame>
    requires Progress(c)
  {
    ReplayFrom(c, data, 0).0
  }

  ghost function IntactLength(c: Format, data: Bytes): nat
    requires Progress(c)
  {
    ReplayFrom(c, data, 0).1
  }

  lemma {:induction false} ImageAppend(c: Format, a: seq<Frame>, b: seq<Frame>)
    requires Total(c) && AllEncodable(a) && AllEncodable(b)
    ensures AllEncodable(a + b) && Image(c, a + b) == Image(c, a) + Image(c, b)
    decreases |a|
  {
    if a == [] {
      assert a + b == b;
    } else {
      ImageAppend(c, a[1..], b);
      assert (a + b)[1..] == a[1..] + b && (a + b)[0] == a[0];
    }
  }

  lemma ImageSnoc(c: Format, fs: seq<Frame>, f: Frame)
    requires Total(c) && AllEncodable(fs) && Encodable(f)
    ensures AllEncodable(fs + [f]) && Image(c, fs + [f]) == Image(c, fs) + c.encode(f)
  {
    ImageAppend(c, fs, [f]);
    assert Image(c, [f]) == c.encode(f) + Image(c, []);
  }

  lemma Skip(data: Bytes, offset: nat, e: Bytes, rest: Bytes)
    requires offset <= |data| && data[offset..] == e + rest
    ensures offset + |e| <= |data| && data[offset + |e|..] == rest
  {
    assert |data| - offset == |e| + |rest|;
    assert data[offset + |e|..] == data[offset..][|e|..];
  }

  /** The first frame of an image, and what stands after it. */
  lemma Peel(c: Format, data: Bytes, offset: nat, fs: seq<Frame>, tail: Bytes)
    requires Lawful(c) && AllEncodable(fs) && fs != [] && offset <= |data| && data[offset..] == Image(c, fs) + tail
    ensures
      var next := offset + |c.encode(fs[0])|;
      && next <= |data| && data[next..] == Image(c, fs[1..]) + tail
      && c.decode(data, offset) == Intact(fs[0], next)
  {
    var e, rest := c.encode(fs[0]), Image(c, fs[1..]);
    assert data[offset..] == e + (rest + tail);
    Skip(data, offset, e, rest + tail);
    assert WritesAt(c, data, offset, fs[0], rest + tail);
  }

  lemma ReplayOne(c: Format, data: Bytes, offset: nat, f: Frame, next: nat)
    requires Progress(c) && offset < |data| && c.decode(data, offset) == Intact(f, next)
    ensures ReplayFrom(c, data, offset) == ([f] + ReplayFrom(c, data, next).0, ReplayFrom(c, data, next).1)
  {}

  /** Wherever an image stands in a file, its frames are replayed, and then what follows it. */
  lemma {:induction false} ReplayImage(c: Format, data: Bytes, offset: nat, fs: seq<Frame>, tail: Bytes)
    requires Lawful(c) && AllEncodable(fs) && offset <= |data| && data[offset..] == Image(c, fs) + tail
    ensures
      var end := offset + |Image(c, fs)|;
      ReplayFrom(c, data, offset) == (fs + ReplayFrom(c, data, end).0, ReplayFrom(c, data, end).1)
    decreases |fs|
  {
    var end := offset + |Image(c, fs)|;
    var gs := ReplayFrom(c, data, end).0;
    if fs == [] {
      assert fs + gs == gs;
    } else {
      var next := offset + |c.encode(fs[0])|;
      Peel(c, data, offset, fs, tail);
      ReplayImage(c, data, next, fs[1..], tail);
      ReplayOne(c, data, offset, fs[0], next);
      assert [fs[0]] + (fs[1..] + gs) == fs + gs;
    }
  }

  /** Nothing more is replayed where nothing decodes. */
  lemma ReplayEnd(c: Format, fs: seq<Frame>, tail: Bytes)
    requires Lawful(c) && AllEncodable(fs)
    requires tail == [] || c.decode(Image(c, fs) + tail, |Image(c, fs)|) == Corrupt
    ensures ReplayFrom(c, Image(c, fs) + tail, 0) == (fs, |Image(c, fs)|)
  {
    var data := Image(c, fs) + tail;
    assert data[0..] == data;
    Skip(data, 0, Image(c, fs), tail);
    ReplayImage(c, data, 0, fs, tail);
    assert fs + [] == fs;
  }

  /**
   * Torn-tail recovery: frames followed by any proper part of one more frame replay to exactly the
   * frames, and the intact part ends exactly where they end.
   */
  lemma TornTail(c: Format, fs: seq<Frame>, f: Frame, torn: Bytes)
    requires Lawful(c) && AllEncodable(fs) && Encodable(f) && torn < c.encode(f)
    ensures ReplayFrom(c, Image(c, fs) + torn, 0) == (fs, |Image(c, fs)|)
  {
    var data, end := Image(c, fs) + torn, |Image(c, fs)|;
    assert data[end..] == torn;
    assert DetectsAt(c, data, end, f);
    ReplayEnd(c, fs, torn);
  }

  /** A crash at any point of an append loses at most the frame that was being written. */
  lemma CrashedAppend(c: Format, fs: seq<Frame>, f: Frame, written: nat)
    requires Lawful(c) && AllEncodable(fs) && Encodable(f) && written <= |c.encode(f)|
    ensures
      var data := Image(c, fs) + c.encode(f)[..written];
      && Frames(c, data) == (if written < |c.encode(f)| then fs else fs + [f])
      && IntactLength(c, data) == |Image(c, Frames(c, data))|
  {
    var e := c.encode(f);
    if written < |e| {
      TornTail(c, fs, f, e[..written]);
    } else {
      assert e[..written] == e;
      ImageSnoc(c, fs, f);
      ReplayEnd(c, fs + [f], []);
      assert Image(c, fs + [f]) + [] == Image(c, fs) + e;
    }
  }

  /** For any file at all: the intact part is the image of the frames it replays to. */
  lemma {:induction false} ReplayCanonical(c: Format, data: Bytes, offset: nat)
    requires Lawful(c) && offset <= |data|
    ensures
      var (fs, end) := ReplayFrom(c, data, offset);
      offset <= end <= |data| && AllEncodable(fs) && data[offset..end] == Image(c, fs)
    decreases |data| - offset
  {
    if offset < |data| && c.decode(data, offset).Intact? {
      var d := c.decode(data, offset);
      assert ReadsAt(c, data, offset);
      ReplayCanonical(c, data, d.next);
      var (fs, end) := ReplayFrom(c, data, d.next);
      assert data[offset..end] == data[offset..d.next] + data[d.next..end];
      assert ([d.frame] + fs)[1..] == fs;
    }
  }

  /** Recovering a recovered file changes nothing, for any file at all. */
  lemma ReplayIdempotent(c: Format, data: Bytes)
    requires Lawful(c)
    ensures
      var (fs, end) := ReplayFrom(c, data, 0);
      end <= |data| && ReplayFrom(c, data[..end], 0) == (fs, end)
  {
    ReplayCanonical(c, data, 0);
    var (fs, end) := ReplayFrom(c, data, 0);
    ReplayEnd(c, fs, []);
    assert Image(c, fs) + [] == data[0..end] == data[..end];
  }

  /** A frame appended after recovery is replayed after the frames that survived. */
  lemma AppendAfterRecovery(c: Format, data: Bytes, f: Frame)
    requires Lawful(c) && Encodable(f)
    ensures
      var (fs, end) := ReplayFrom(c, data, 0);
      end <= |data| && Frames(c, data[..end] + c.encode(f)) == fs + [f]
  {
    ReplayCanonical(c, data, 0);
    var (fs, end) := ReplayFrom(c, data, 0);
    ImageSnoc(c, fs, f);
    ReplayEnd(c, fs + [f], []);
    assert Image(c, fs + [f]) + [] == data[0..end] + c.encode(f);
  }

  // ---------------------------------------------------------------- the log

  /** The log as an object over its file. */
  class WriteAheadLog {
    const format: Format
    var file: Bytes
    var written: nat

    /** Opening does not read the file; `Replay` does. */
    constructor (format: Format, file: Bytes)
      ensures this.format == format && this.file == file && written == |file|
    {
      this.format := format;
      this.file := file;
      written := |file|;
    }

    /** Appends one frame; the result is the offset it was written at. */
    method Append(f: Frame) returns (offset: nat)
      requires Encodable(f) && Total(format)
      modifies this
      ensures file == old(file) + format.encode(f)
      ensures offset == old(written) && written == old(written) + |format.encode(f)|
    {
      var blob := format.encode(f);
      offset := written;
      file := file + blob;
      written := written + |blob|;
    }

    /**
     * Reads every intact frame.  Where the first damaged one starts, the file is cut, or, if the caller
     * does not want that, an error is raised.
     */
    method Replay(truncateCorrupt: bool) returns (fs: seq<Frame>, raised: bool)
      requires Lawful(format) && written == |file|
      modifies this
      ensures fs == Frames(format, old(file)) && written == |file|
      ensures IntactLength(format, old(file)) <= |old(file)|
      ensures raised <==> !truncateCorrupt && IntactLength(format, old(file)) < |old(file)|
      ensures file == if raised then old(file) else old(file)[..IntactLength(format, old(file))]
      ensures !raised ==> Frames(format, file) == fs && IntactLength(format, file) == |file|
    {
      fs, raised := [], false;
      var offset := 0;
      var data := file;
      ReplayIdempotent(format, data);
      assert [] + Frames(format, data) == Frames(format, data);
      while offset < |data|
        invariant offset <= |data| && file == data == old(file) && written == |file| && !raised
        invariant ReplayFrom(format, data, 0) == (fs + ReplayFrom(format, data, offset).0, ReplayFrom(format, data, offset).1)
        decreases |data| - offset
      {
        match format.decode(data, offset)
        case Corrupt =>
          assert fs + [] == fs;
          if truncateCorrupt {
            Truncate(offset);
          } else {
            raised := true;
          }
          return;
        case Intact(f, next) =>
          ghost var gs := ReplayFrom(format, data, next).0;
          assert fs + ([f] + gs) == fs + [f] + gs;
          fs := fs + [f];
          offset := next;
      }
      assert fs + [] == fs && data[..|data|] == data;
    }

    method Truncate(offset: nat)
      requires offset <= |file|
      modifies this
      ensures file == old(file)[..offset] && written == offset
    {
      file := file[..offset];
      written := offset;
    }

    /** Discards the log. */
    method Rotate()
      modifies this
      ensures file == [] && written == 0
    {
      file := [];
      written := 0;
    }
  }
}
