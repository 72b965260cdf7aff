/**
What a sequence of the daemon's frames comes to when nothing on the client's side fails: each
frame either ends the transfer or moves the journal and the loop's variables on.  This is the
reference the client's loop is proved against, frame by frame, and for which a complete delivery
is proved to succeed.
*/
module DownloadFrames {
  import opened Common
  import opened DownloadProtocol

  /** What the daemon sends; `Eof` is a closed connection, `valid` the rate tracker's judgement of an event. */
  datatype Frame =
    | FileChunk(data: Bytes)
    | ProgressFrame(total: nat, valid: bool)
    | DigestFrame(transferId: string, sha256: string)
    | DoneFrame(bytes: nat)
    | OtherFrame
    | Eof

  /** The journal and the variables of the loop between two frames. */
  datatype Cursor = Cursor(j: Journal, t: Transfer)

  /** `record_durable` refuses the offset. */
  predicate OffsetRefused(j: Journal, offset: nat) {
    j.size == None || offset > j.size.value || offset < j.durable
  }

  predicate WindowFull(t: Transfer, received: nat) {
    received - t.durable >= DURABLE_WINDOW_BYTES
  }

  /** The client ends the transfer because of this frame, though none of its own operations fails. */
  predicate Unwelcome(h: Hash, f: Frame, c: Cursor) {
    match f
    case FileChunk(data) =>
      var received := c.t.received + |data|;
      || |data| == 0 || |data| > MAX_CHUNK_BYTES || received > MAX_TRANSFER_BYTES
      || (WindowFull(c.t, received) && OffsetRefused(c.j, received))
    case ProgressFrame(_, valid) => !valid
    case DigestFrame(transferId, sha256) =>
      || transferId != c.j.transferId || !IsSha256Text(sha256) || c.t.announced == None
      || ((c.j.size.Some? || c.j.sha256.Some?) && (c.j.size != c.t.announced || c.j.sha256 != Some(sha256)))
    case DoneFrame(bytes) =>
      bytes != c.t.received || c.t.digest != Some(h(c.t.hashed)) || OffsetRefused(c.j, c.t.received)
    case OtherFrame => true
    case Eof => true
  }

  function Received(t: Transfer, data: Bytes): Transfer {
    t.(hashed := t.hashed + data, received := t.received + |data|)
  }

  function Acknowledged(t: Transfer): Transfer {
    t.(acks := t.acks + [Ack(t.received, t.durable)])
  }

  /** What a welcome frame does, `DoneFrame` aside. */
  function Feed(c: Cursor, f: Frame): Cursor {
    match f
    case FileChunk(data) =>
      var t := Received(c.t, data);
      if WindowFull(c.t, t.received)
      then Cursor(c.j.(durable := t.received), Acknowledged(t.(durable := t.received)))
      else Cursor(c.j, Acknowledged(t))
    case ProgressFrame(total, _) => c.(t := c.t.(announced := Some(total)))
    case DigestFrame(_, sha256) =>
      var j :=
        if c.j.size == None && c.j.sha256 == None then c.j.(size := c.t.announced, sha256 := Some(sha256))
        else c.j;
      Cursor(j, c.t.(digest := Some(sha256)))
    case _ => c
  }

  /** Where the frames lead: the verified end, or nowhere when an unwelcome frame comes before it. */
  function Verdict(h: Hash, c: Cursor, frames: seq<Frame>): Option<Cursor>
    decreases |frames|
  {
    if frames == [] || Unwelcome(h, frames[0], c) then None
    else if frames[0].DoneFrame? then Some(c.(j := c.j.(durable := c.t.received)))
    else Verdict(h, Feed(c, frames[0]), frames[1..])
  }

  /** The loop's variables after the durable prefix has been hashed again. */
  function Resumed(j: Journal, prefix: Bytes): Cursor {
    Cursor(j, NO_TRANSFER.(hashed := prefix, received := j.durable, durable := j.durable))
  }

  /** The journal a run works with, unless the stored one is of another subject or incoherent. */
  function StartJournal(d: Disk, subject: Subject, newTransferId: string): Option<Journal> {
    match d.journal
    case None => Some(Journal(subject, newTransferId, None, None, 0))
    case Some(j) => if j.subject == subject && j.Coherent() then Some(j) else None
  }

  /** The durable prefix, unless the partial file does not hold it. */
  function StartPrefix(d: Disk, durable: nat): Option<Bytes> {
    if durable == 0 then Some([])
    else match d.partial
      case None => None
      case Some(f) => if |f.Content()| < durable then None else Some(f.Content()[..durable])
  }

  /** How a whole run ends if nothing on this side fails. */
  function Expected(h: Hash, d: Disk, subject: Subject, newTransferId: string, frames: seq<Frame>): Option<Cursor> {
    if d.local.Some? then None
    else match StartJournal(d, subject, newTransferId)
      case None => None
      case Some(j) =>
        match StartPrefix(d, j.durable)
        case None => None
        case Some(prefix) => Verdict(h, Resumed(j, prefix), frames + [Eof])
  }

  // ---------------------------------------------------------------- a complete delivery

  /** The source's bytes from `at` on, in chunks of any allowed size, progress in between, then the end. */
  predicate Delivers(source: Bytes, at: nat, frames: seq<Frame>)
    decreases |frames|
  {
    frames != [] &&
    match frames[0]
    case FileChunk(data) =>
      && 0 < |data| <= MAX_CHUNK_BYTES && at + |data| <= |source| && data == source[at..at + |data|]
      && Delivers(source, at + |data|, frames[1..])
    case ProgressFrame(_, valid) => valid && Delivers(source, at, frames[1..])
    case DoneFrame(bytes) => bytes == at == |source|
    case _ => false
  }

  /** The cursor is inside a transfer of `source` whose size and digest are on record. */
  predicate Midway(h: Hash, source: Bytes, c: Cursor) {
    && c.j.size == Some(|source|) && c.t.digest == Some(h(source))
    && c.j.durable == c.t.durable <= c.t.received <= |source| <= MAX_TRANSFER_BYTES
    && c.t.hashed == source[..c.t.received]
  }

  lemma ChunkStaysMidway(h: Hash, source: Bytes, c: Cursor, data: Bytes)
    requires Midway(h, source, c) && 0 < |data| <= MAX_CHUNK_BYTES && c.t.received + |data| <= |source|
    requires data == source[c.t.received..c.t.received + |data|]
    ensures !Unwelcome(h, FileChunk(data), c) && Midway(h, source, Feed(c, FileChunk(data)))
    ensures Feed(c, FileChunk(data)).t.received == c.t.received + |data|
  {
    var at := c.t.received;
    assert source[..at] + source[at..at + |data|] == source[..at + |data|];
  }

  lemma {:induction false} DeliveryEndsVerified(h: Hash, source: Bytes, c: Cursor, frames: seq<Frame>)
    requires Midway(h, source, c) && Delivers(source, c.t.received, frames)
    ensures Verdict(h, c, frames).Some? && Verdict(h, c, frames).value.t.hashed == source
    ensures Verdict(h, c, frames).value.t.received == |source|
    decreases |frames|
  {
    match frames[0]
    case FileChunk(data) =>
      ChunkStaysMidway(h, source, c, data);
      DeliveryEndsVerified(h, source, Feed(c, frames[0]), frames[1..]);
    case ProgressFrame(_, _) =>
      DeliveryEndsVerified(h, source, Feed(c, frames[0]), frames[1..]);
    case DoneFrame(_) =>
      assert source[..|source|] == source;
  }

  lemma {:induction false} DeliveryGoesOn(source: Bytes, at: nat, frames: seq<Frame>, more: seq<Frame>)
    requires Delivers(source, at, frames)
    ensures Delivers(source, at, frames + more)
    decreases |frames|
  {
    assert (frames + more)[0] == frames[0] && (frames + more)[1..] == frames[1..] + more;
    match frames[0]
    case FileChunk(data) => DeliveryGoesOn(source, at + |data|, frames[1..], more);
    case ProgressFrame(_, _) => DeliveryGoesOn(source, at, frames[1..], more);
    case DoneFrame(_) =>
  }

  /** The announcement that puts size and digest on record. */
  function Announcement(h: Hash, source: Bytes, transferId: string): seq<Frame> {
    [ProgressFrame(|source|, true), DigestFrame(transferId, h(source))]
  }

  /** The journal is new, or has this source's size and digest on record. */
  predicate Agrees(h: Hash, source: Bytes, j: Journal) {
    j.Fresh() || (j.Coherent() && j.size == Some(|source|) && j.sha256 == Some(h(source)))
  }

  lemma AnnouncementAccepted(h: Hash, source: Bytes, j: Journal, rest: seq<Frame>) returns (c: Cursor)
    requires Agrees(h, source, j) && IsSha256Text(h(source)) && j.durable <= |source| <= MAX_TRANSFER_BYTES
    ensures Midway(h, source, c) && c.t.received == j.durable
    ensures var frames := Announcement(h, source, j.transferId) + rest;
      Verdict(h, Resumed(j, source[..j.durable]), frames) == Verdict(h, c, rest)
  {
    var begin := Resumed(j, source[..j.durable]);
    var frames := Announcement(h, source, j.transferId) + rest;
    var second := frames[1..];
    assert second[0] == DigestFrame(j.transferId, h(source)) && second[1..] == rest;
    c := Feed(Feed(begin, frames[0]), second[0]);
  }

  /**
  A run resumed with the source's own prefix and given the complete delivery of the rest, in any
  chunking, ends with all of the source, whatever the daemon sends after it.
  */
  lemma CompleteDeliverySucceeds(h: Hash, d: Disk, subject: Subject, newTransferId: string, source: Bytes, j: Journal,
                                 body: seq<Frame>)
    requires d.local == None && StartJournal(d, subject, newTransferId) == Some(j) && Agrees(h, source, j)
    requires IsSha256Text(h(source)) && j.durable <= |source| <= MAX_TRANSFER_BYTES
    requires StartPrefix(d, j.durable) == Some(source[..j.durable])
    requires Delivers(source, j.durable, body)
    ensures var end := Expected(h, d, subject, newTransferId, Announcement(h, source, j.transferId) + body);
      end.Some? && end.value.t.hashed == source && end.value.t.received == |source|
  {
    var c := AnnouncementAccepted(h, source, j, body + [Eof]);
    DeliveryGoesOn(source, j.durable, body, [Eof]);
    DeliveryEndsVerified(h, source, c, body + [Eof]);
    var opening := Announcement(h, source, j.transferId);
    assert (opening + body) + [Eof] == opening + (body + [Eof]);
  }
}
