/** The entries of the store's log as frames, and what a crash inside an append leaves of them. */
module LsmLog {
  import opened Options
  import opened Codec
  import opened Payload
  import LsmModel
  import Wal

  /** What fits the fields of a frame. */
  predicate Loggable(e: LsmModel.Entry) {
    match e
    case Mark(s) => s < U64
    case Mutation(id, row) =>
      && row.seqno < U64 && |id| + 4 < U32
      && (row.doc.Some? ==> Packable(id, row.doc.value) && |EncodePut(id, row.doc.value)| < U32)
  }

  function FrameOf(e: LsmModel.Entry): (f: Frame)
    requires Loggable(e)
    ensures Encodable(f)
  {
    match e
    case Mark(s) => Frame(Checkpoint, s, [], 0)
    case Mutation(id, row) =>
      match row.doc
      case Some(c) => Frame(Put, row.seqno, EncodePut(id, c), 0)
      case None => Frame(Delete, row.seqno, EncodeDelete(id), 0)
  }

  /** How recovery reads a frame; `None` stands for the exception a malformed payload raises. */
  function EntryOf(f: Frame): Option<LsmModel.Entry> {
    match f.kind
    case Put =>
      (match DecodePut(f.payload)
       case None => None
       case Some((id, c)) => Some(LsmModel.Mutation(id, LsmModel.Row(f.seqno, Some(c)))))
    case Delete =>
      (match DecodeDelete(f.payload)
       case None => None
       case Some(id) => Some(LsmModel.Mutation(id, LsmModel.Row(f.seqno, None))))
    case _ => Some(LsmModel.Mark(f.seqno))
  }

  /** A frame reads back as the entry it was made of; its kind says whether it is a put, a delete or a mark. */
  lemma EntryRoundTrip(e: LsmModel.Entry)
    requires Loggable(e)
    ensures EntryOf(FrameOf(e)) == Some(e)
    ensures FrameOf(e).seqno == LsmModel.SeqnoOf(e) && FrameOf(e).flags == 0
    ensures FrameOf(e).kind == if e.Mark? then Checkpoint else if e.row.doc.Some? then Put else Delete
  {
    match e
    case Mark(s) =>
    case Mutation(id, row) =>
      match row.doc
      case Some(c) => PutRoundTrip(id, c);
      case None => DeleteRoundTrip(id);
  }

  predicate AllLoggable(wal: seq<LsmModel.Entry>) {
    forall e <- wal :: Loggable(e)
  }

  function FramesOf(wal: seq<LsmModel.Entry>): (fs: seq<Frame>)
    requires AllLoggable(wal)
    ensures |fs| == |wal| && Wal.AllEncodable(fs)
  {
    seq(|wal|, i requires 0 <= i < |wal| => FrameOf(wal[i]))
  }

  /** The frames of a file read back as the entries `wal`. */
  predicate ReadsAs(fs: seq<Frame>, wal: seq<LsmModel.Entry>) {
    |fs| == |wal| && forall i | 0 <= i < |fs| :: EntryOf(fs[i]) == Some(wal[i])
  }

  lemma FramesRead(wal: seq<LsmModel.Entry>)
    requires AllLoggable(wal)
    ensures ReadsAs(FramesOf(wal), wal)
  {
    forall i | 0 <= i < |wal| ensures EntryOf(FramesOf(wal)[i]) == Some(wal[i]) {
      EntryRoundTrip(wal[i]);
    }
  }

  /**
   * A crash while the bytes of one more entry are being appended: what recovery reads from the file is
   * the log before the append, or after it if all the bytes were written; nothing else.
   */
  lemma CrashedLog(c: Wal.Format, wal: seq<LsmModel.Entry>, e: LsmModel.Entry, written: nat)
    requires Wal.Lawful(c) && AllLoggable(wal + [e]) && AllLoggable(wal) && Loggable(e) && written <= |c.encode(FrameOf(e))|
    ensures
      var data := Wal.Image(c, FramesOf(wal)) + c.encode(FrameOf(e))[..written];
      ReadsAs(Wal.Frames(c, data), if written < |c.encode(FrameOf(e))| then wal else wal + [e])
  {
    Wal.CrashedAppend(c, FramesOf(wal), FrameOf(e), written);
    FramesRead(wal);
    FramesRead(wal + [e]);
    assert FramesOf(wal) + [FrameOf(e)] == FramesOf(wal + [e]);
  }
}
