/**
The upload client: negotiating a resume offset with the daemon, sending the rest of the source one
acknowledged chunk at a time, and reporting what became of the commit.
*/
module Upload {
  import opened Common

  const SFTP_SAFE_CHUNK_BYTES: nat := 2 * 1024
  const MAX_UPLOAD_CHUNK_BYTES: nat := 32 * 1024

  /** `valid` says whether the progress event passes its own validation. */
  datatype Progress = Progress(sameTransfer: bool, chunkBytes: nat, durable: nat, valid: bool)

  datatype Reply = Report(progress: Progress) | Ack | ErrorFrame(text: string) | TransferDone(bytes: nat)
                 | OtherFrame | Eof | Unreadable

  /** The record of one resumable upload: the offset held in memory and the one on disk. */
  datatype Journal = Journal(size: nat, offset: nat, disk: nat)

  /** The chunks whose write was begun and the acknowledgements received, in order. */
  datatype Log = Nothing | Begun(before: Log, data: Bytes) | Acked(before: Log)

  datatype Fault = DaemonError(text: string) | BadProgress | BadFrame | WriteFailed | SourceFailed
                 | JournalSaveFailed | JournalMismatch

  datatype Step = Proceed | Broken(fault: Fault) | Interrupted

  datatype UploadResult =
    | Stored(bytes: nat)
    | Refused(text: string)
    | SizeMismatch(bytes: nat)
    | InvalidProgress
    | CommitOutcomeUnknown
    | FailedBeforeCommit(fault: Fault)
    | StoppedBeforeCommit

  // ---------------------------------------------------------------- what was sent

  ghost function Chunks(log: Log): Bytes {
    match log
    case Nothing => []
    case Begun(before, data) => Chunks(before) + data
    case Acked(before) => Chunks(before)
  }

  /** Chunks begun and not yet acknowledged. */
  ghost function Outstanding(log: Log): int {
    match log
    case Nothing => 0
    case Begun(before, _) => Outstanding(before) + 1
    case Acked(before) => Outstanding(before) - 1
  }

  ghost function Begins(log: Log): nat {
    match log
    case Nothing => 0
    case Begun(before, _) => Begins(before) + 1
    case Acked(before) => Begins(before)
  }

  ghost predicate Orderly(log: Log, chunk: nat) {
    match log
    case Nothing => true
    case Begun(before, data) => Orderly(before, chunk) && Outstanding(before) == 0 && 0 < |data| <= chunk
    case Acked(before) => Orderly(before, chunk) && Outstanding(before) == 1
  }

  /** The log was `earlier` at some moment. */
  ghost predicate Was(earlier: Log, log: Log) {
    earlier == log || (!log.Nothing? && Was(earlier, log.before))
  }

  /** At every moment at most one chunk is unacknowledged, and no chunk exceeds the negotiated size. */
  lemma {:induction false} OneChunkAtATime(log: Log, chunk: nat, earlier: Log)
    requires Orderly(log, chunk) && Was(earlier, log)
    ensures 0 <= Outstanding(earlier) <= 1
    ensures earlier.Begun? ==> 0 < |earlier.data| <= chunk && Outstanding(earlier.before) == 0
  {
    if earlier != log {
      OneChunkAtATime(log.before, chunk, earlier);
    }
  }

  lemma {:induction false} ChunksAreBytes(log: Log, chunk: nat)
    requires Orderly(log, chunk)
    ensures Begins(log) <= |Chunks(log)|
  {
    if !log.Nothing? {
      ChunksAreBytes(log.before, chunk);
    }
  }

  // ---------------------------------------------------------------- what was announced

  /** The largest offset announced in the first `n` frames. */
  function PeakOf(frames: seq<Reply>, n: nat): nat
    requires n <= |frames|
  {
    if n == 0 then 0
    else
      var last := frames[n - 1];
      Max(PeakOf(frames, n - 1), if last.Report? then last.progress.durable else 0)
  }

  /** No announced offset is larger, and it is one of them unless nothing but 0 was announced. */
  lemma {:induction false} PeakIsLargest(frames: seq<Reply>, n: nat)
    requires n <= |frames|
    ensures forall i :: 0 <= i < n && frames[i].Report? ==> frames[i].progress.durable <= PeakOf(frames, n)
    ensures PeakOf(frames, n) == 0 ||
      exists i :: 0 <= i < n && frames[i].Report? && frames[i].progress.durable == PeakOf(frames, n)
  {
    if n > 0 {
      PeakIsLargest(frames, n - 1);
    }
  }

  predicate AnnouncesChunk(r: Reply) {
    r.Report? && r.progress.chunkBytes > 0
  }

  /** The chunk size in force after the first `n` frames. */
  function ChunkOf(frames: seq<Reply>, n: nat): nat
    requires n <= |frames|
  {
    if n == 0 then SFTP_SAFE_CHUNK_BYTES
    else if AnnouncesChunk(frames[n - 1]) then frames[n - 1].progress.chunkBytes
    else ChunkOf(frames, n - 1)
  }

  /** The last announcement counts, an announcement of 0 being none. */
  lemma {:induction false} ChunkIsLastAnnounced(frames: seq<Reply>, n: nat, k: nat)
    requires k < n <= |frames| && AnnouncesChunk(frames[k])
    requires forall i :: k < i < n ==> !AnnouncesChunk(frames[i])
    ensures ChunkOf(frames, n) == frames[k].progress.chunkBytes
  {
    if k < n - 1 {
      ChunkIsLastAnnounced(frames, n - 1, k);
    }
  }

  lemma {:induction false} ChunkByDefault(frames: seq<Reply>, n: nat)
    requires n <= |frames| && forall i :: 0 <= i < n ==> !AnnouncesChunk(frames[i])
    ensures ChunkOf(frames, n) == SFTP_SAFE_CHUNK_BYTES
  {
    if n > 0 {
      ChunkByDefault(frames, n - 1);
    }
  }

  predicate ValidReport(r: Reply) {
    r.Report? && r.progress.valid
  }

  /** A valid report that the journal, if there is one, accepts. */
  predicate GoodReport(r: Reply, journal: Option<Journal>) {
    ValidReport(r) && (journal.Some? ==> r.progress.sameTransfer && r.progress.durable <= journal.value.size)
  }

  predicate Acceptable(r: Reply, size: nat, journal: Option<Journal>) {
    GoodReport(r, journal) && r.progress.chunkBytes <= MAX_UPLOAD_CHUNK_BYTES && r.progress.durable <= size
  }

  /** The first `n` frames are acceptable reports. */
  predicate AllAcceptable(frames: seq<Reply>, n: nat, size: nat, journal: Option<Journal>)
    requires n <= |frames|
  {
    forall i :: 0 <= i < n ==> Acceptable(frames[i], size, journal)
  }

  /** The same transfer, no offset moved back. */
  predicate Advances(from: Option<Journal>, to: Option<Journal>) {
    && (from.Some? <==> to.Some?)
    && (from.Some? ==>
          && from.value.size == to.value.size
          && from.value.offset <= to.value.offset && from.value.disk <= to.value.disk)
  }

  /** The journal comparison: the announced offset reaches the journaled one; without a journal it is 0. */
  predicate Agrees(resume: nat, first: Option<Journal>) {
    if first.Some? then resume >= first.value.offset else resume == 0
  }

  // ---------------------------------------------------------------- acknowledgements

  /** Frames `from` to `to` are acknowledgements and good reports. */
  predicate Conversation(frames: seq<Reply>, from: nat, to: nat, journal: Option<Journal>)
    requires to <= |frames|
  {
    forall i :: from <= i < to ==> frames[i] == Ack || GoodReport(frames[i], journal)
  }

  predicate GoodReports(frames: seq<Reply>, from: nat, to: nat, journal: Option<Journal>)
    requires to <= |frames|
  {
    forall i :: from <= i < to ==> GoodReport(frames[i], journal)
  }

  /** The acknowledgements among the first `n` frames. */
  function AcksOf(frames: seq<Reply>, n: nat): nat
    requires n <= |frames|
  {
    if n == 0 then 0 else AcksOf(frames, n - 1) + if frames[n - 1] == Ack then 1 else 0
  }

  lemma {:induction false} AcksGrow(frames: seq<Reply>, i: nat, j: nat)
    requires i <= j <= |frames|
    ensures AcksOf(frames, i) <= AcksOf(frames, j)
    decreases j
  {
    if i < j {
      AcksGrow(frames, i, j - 1);
    }
  }

  lemma {:induction false} ReportsAreNoAcks(frames: seq<Reply>, i: nat, j: nat)
    requires i <= j <= |frames| && forall k :: i <= k < j ==> frames[k].Report?
    ensures AcksOf(frames, j) == AcksOf(frames, i)
    decreases j
  {
    if i < j {
      ReportsAreNoAcks(frames, i, j - 1);
      assert frames[j - 1].Report?;
    }
  }

  /** Good reports continue a conversation without an acknowledgement; `now` is a later state of the journal. */
  lemma ReportsContinue(frames: seq<Reply>, from: nat, was: nat, to: nat, first: Option<Journal>, now: Option<Journal>)
    requires from <= was <= to <= |frames| && Advances(first, now)
    requires Conversation(frames, from, was, first) && GoodReports(frames, was, to, now)
    ensures Conversation(frames, from, to, first) && AcksOf(frames, to) == AcksOf(frames, was)
  {
    ReportsAreNoAcks(frames, was, to);
    forall i | from <= i < to
      ensures frames[i] == Ack || GoodReport(frames[i], first)
    {
      if i >= was {
        assert GoodReport(frames[i], now);
      }
    }
  }

  lemma SliceGoesOn(s: Bytes, start: nat, at: nat, n: nat)
    requires start <= at && at + n <= |s|
    ensures s[start..at] + s[at..at + n] == s[start..at + n] && s[start..at + n] <= s[start..]
  {
  }

  // ---------------------------------------------------------------- the verdict on the commit

  /** The first frame from `i` on that is no valid report. */
  function ReportEnd(frames: seq<Reply>, i: nat): (k: nat)
    requires i <= |frames|
    ensures i <= k <= |frames|
    ensures forall j :: i <= j < k ==> ValidReport(frames[j])
    ensures k < |frames| ==> !ValidReport(frames[k])
    decreases |frames| - i
  {
    if i < |frames| && ValidReport(frames[i]) then ReportEnd(frames, i + 1) else i
  }

  /** What the daemon's frames from `i` on say about the commit, if only those before `limit` arrive in time. */
  function Verdict(frames: seq<Reply>, i: nat, size: nat, limit: nat): UploadResult
    requires i <= |frames|
  {
    var k := ReportEnd(frames, i);
    if k >= limit || k == |frames| then CommitOutcomeUnknown
    else match frames[k]
      case Report(_) => InvalidProgress
      case TransferDone(bytes) => if bytes == size then Stored(bytes) else SizeMismatch(bytes)
      case ErrorFrame(text) => Refused(text)
      case _ => CommitOutcomeUnknown
  }

  /** Frame `k` is the first after `i` that is no valid report, and arrives in time. */
  predicate Decides(frames: seq<Reply>, i: nat, limit: nat, k: nat) {
    && i <= k < |frames| && k < limit && !ValidReport(frames[k])
    && forall j :: i <= j < k ==> ValidReport(frames[j])
  }

  /** The deciding frame is the daemon's answer. */
  lemma CommitAnswers(frames: seq<Reply>, i: nat, size: nat, limit: nat, k: nat)
    requires i <= |frames| && Decides(frames, i, limit, k)
    ensures var r := Verdict(frames, i, size, limit);
      && (r == Stored(size) <==> frames[k] == TransferDone(size))
      && (r.Stored? ==> r.bytes == size)
      && (forall text :: r == Refused(text) <==> frames[k] == ErrorFrame(text))
      && (forall bytes :: r == SizeMismatch(bytes) <==> frames[k] == TransferDone(bytes) && bytes != size)
      && (r == InvalidProgress <==> frames[k].Report?)
      && (r == CommitOutcomeUnknown <==> frames[k] in {Ack, OtherFrame, Eof, Unreadable})
  {
    assert ReportEnd(frames, i) == k;
  }

  /** No deciding frame in time leaves the outcome unknown. */
  lemma NoAnswerInTime(frames: seq<Reply>, i: nat, size: nat, limit: nat)
    requires i <= |frames| && forall k :: !Decides(frames, i, limit, k)
    ensures Verdict(frames, i, size, limit) == CommitOutcomeUnknown
  {
    var k := ReportEnd(frames, i);
    assert !Decides(frames, i, limit, k);
  }

  // ---------------------------------------------------------------- the client

  class UploadClient {
    const source: Bytes
    const size: nat
    /** How many bytes each read of the source would like to give. */
    const readSize: nat -> nat
    var journal: Option<Journal>
    /** The frames the daemon sends, after which it is silent, and how many have been received. */
    const frames: seq<Reply>
    var heard: nat
    /** Frames written, reads of the source and saves of the journal so far. */
    var writes: nat
    var fetches: nat
    var saves: nat
    /** The next one of each that fails, and the wait that the cancellation or the deadline ends. */
    const maxWrites: nat
    const maxFetches: nat
    const maxSaves: nat
    const maxWaits: nat
    var log: Log
    var endStarted: bool

    constructor (source: Bytes, size: nat, readSize: nat -> nat, offset: Option<nat>, frames: seq<Reply>,
                 maxWaits: nat, maxWrites: nat, maxFetches: nat, maxSaves: nat)
      ensures this.source == source && this.size == size && this.readSize == readSize && this.frames == frames
      ensures this.maxWaits == maxWaits && this.maxWrites == maxWrites
      ensures this.maxFetches == maxFetches && this.maxSaves == maxSaves
      ensures journal == if offset.Some? then Some(Journal(size, offset.value, offset.value)) else None
      ensures Fresh()
    {
      this.source, this.size, this.readSize, this.frames := source, size, readSize, frames;
      this.maxWaits, this.maxWrites, this.maxFetches, this.maxSaves := maxWaits, maxWrites, maxFetches, maxSaves;
      journal := if offset.Some? then Some(Journal(size, offset.value, offset.value)) else None;
      heard, writes, fetches, saves := 0, 0, 0, 0;
      log, endStarted := Nothing, false;
    }

    predicate Fresh()
      reads this
    {
      && heard == 0 && writes == 0 && fetches == 0 && saves == 0 && log == Nothing && !endStarted
      && JournalSaved()
    }

    /** What is on disk never runs ahead of the state in memory, and no frame is saved twice. */
    predicate JournalSaved()
      reads this
    {
      saves <= heard <= |frames| && (journal.Some? ==> journal.value.disk <= journal.value.offset)
    }

    /** A step that stopped on this side's account did so because the limit was reached. */
    predicate Excused(r: Step)
      reads this
    {
      && (r == Interrupted ==> heard + writes >= maxWaits || heard == |frames|)
      && (r == Broken(WriteFailed) ==> writes >= maxWrites)
      && (r == Broken(SourceFailed) ==> fetches >= maxFetches)
      && (r == Broken(JournalSaveFailed) ==> maxSaves <= saves < heard)
    }

    /** The journal moves forward only, and so does the daemon's side of the exchange. */
    twostate predicate Kept()
      reads this
    {
      JournalSaved() && Advances(old(journal), journal) && old(heard) <= heard
    }

    /** The next frame, unless the daemon is silent or `limit` frames have been received. */
    method Receive(limit: int) returns (r: Option<Reply>)
      requires heard <= |frames|
      modifies `heard
      ensures heard == old(heard) <==> old(heard) == |frames| || old(heard) >= limit
      ensures old(heard) <= heard <= old(heard) + 1 && heard <= |frames|
      ensures r == if heard == old(heard) then None else Some(frames[old(heard)])
    {
      if heard == |frames| || heard >= limit {
        return None;
      }
      r := Some(frames[heard]);
      heard := heard + 1;
    }

    method Write() returns (r: Step)
      modifies `writes
      ensures r == if heard + old(writes) >= maxWaits then Interrupted
                   else if old(writes) >= maxWrites then Broken(WriteFailed)
                   else Proceed
      ensures writes == old(writes) + if r == Proceed then 1 else 0
    {
      if heard + writes >= maxWaits {
        return Interrupted;
      }
      if writes >= maxWrites {
        return Broken(WriteFailed);
      }
      writes := writes + 1;
      r := Proceed;
    }

    /** `UploadResumeJournal::observe`: the offset only moves forward, and is saved when it does. */
    method Observe(p: Progress) returns (r: Step)
      requires journal.Some? && JournalSaved() && saves < heard
      modifies `journal, `saves
      ensures JournalSaved() && Advances(old(journal), journal)
      ensures r == if !p.sameTransfer || p.durable > old(journal.value.size) then Broken(BadProgress)
                   else if p.durable > old(journal.value.offset) && old(saves) >= maxSaves
                   then Broken(JournalSaveFailed)
                   else Proceed
      ensures r == Proceed ==> journal.value.offset == Max(old(journal.value.offset), p.durable)
      ensures r == Proceed && old(journal.value.disk == journal.value.offset) ==>
        journal.value.disk == journal.value.offset
      ensures r == Broken(BadProgress) ==> journal == old(journal)
      ensures saves == old(saves) + if r == Proceed && p.durable > old(journal.value.offset) then 1 else 0
    {
      var state := journal.value;
      if !p.sameTransfer || p.durable > state.size {
        return Broken(BadProgress);
      }
      if p.durable > state.offset {
        journal := Some(state.(offset := p.durable));
        if saves >= maxSaves {
          var committed: bool := *;
          if committed {
            journal := Some(journal.value.(disk := p.durable));
          }
          return Broken(JournalSaveFailed);
        }
        saves := saves + 1;
        journal := Some(journal.value.(disk := p.durable));
      }
      r := Proceed;
    }

    /** A report is noted exactly when it is good and the journal can be saved if it must be. */
    method NoteProgress(p: Progress) returns (r: Step)
      requires JournalSaved() && saves < heard
      modifies `journal, `saves
      ensures JournalSaved() && Advances(old(journal), journal)
      ensures r == Proceed || r == Broken(BadProgress) || r == Broken(JournalSaveFailed)
      ensures r == Broken(BadProgress) ==> !GoodReport(Report(p), old(journal))
      ensures r == Broken(JournalSaveFailed) ==>
        journal.Some? && p.durable > old(journal).value.offset && saves == old(saves) && maxSaves <= saves
      ensures r == Proceed ==> GoodReport(Report(p), old(journal))
      ensures r == Proceed && journal.Some? ==> journal.value.offset == Max(old(journal).value.offset, p.durable)
    {
      r := Proceed;
      if journal.Some? {
        r := Observe(p);
      }
      if r == Proceed && !p.valid {
        r := Broken(BadProgress);
      }
    }

    /** One progress report during negotiation. */
    method Consider(p: Progress, chunk: nat, resume: nat) returns (r: Step, newChunk: nat, newResume: nat)
      requires JournalSaved() && saves < heard
      modifies `journal, `saves
      ensures JournalSaved() && Advances(old(journal), journal)
      ensures r == Proceed && journal.Some? ==> journal.value.offset == Max(old(journal).value.offset, p.durable)
      ensures r == Proceed ==> Acceptable(Report(p), size, old(journal))
      ensures r == Proceed ==> newChunk == if p.chunkBytes > 0 then p.chunkBytes else chunk
      ensures r == Proceed ==> newResume == Max(resume, p.durable)
      ensures r == Proceed || r == Broken(BadProgress) || r == Broken(JournalSaveFailed)
      ensures r == Broken(BadProgress) ==> !Acceptable(Report(p), size, old(journal))
      ensures r == Broken(JournalSaveFailed) ==>
        journal.Some? && p.durable > old(journal).value.offset && saves == old(saves) && maxSaves <= saves
    {
      newChunk, newResume := chunk, resume;
      if p.chunkBytes > 0 {
        if p.chunkBytes > MAX_UPLOAD_CHUNK_BYTES {
          return Broken(BadProgress), newChunk, newResume;
        }
        newChunk := p.chunkBytes;
      }
      if p.durable > size {
        return Broken(BadProgress), newChunk, newResume;
      }
      newResume := Max(resume, p.durable);
      r := NoteProgress(p);
    }

    /** The fault that a frame other than a report or an acknowledgement amounts to. */
    function FaultOf(r: Reply): Fault {
      if r.ErrorFrame? then DaemonError(r.text) else BadFrame
    }

    /** The last frame received is the cause of the fault. */
    predicate Blames(f: Fault, good: bool)
      reads this
    {
      && 0 < heard <= |frames| && frames[heard - 1] != Ack
      && (if frames[heard - 1].Report? then f == BadProgress && !good else f == FaultOf(frames[heard - 1]))
    }

    /** Chunk size and offset after the frames so far, all of them acceptable reports. */
    ghost predicate Negotiating(first: Option<Journal>, chunk: nat, resume: nat)
      reads this
    {
      && JournalSaved() && Advances(first, journal) && AllAcceptable(frames, heard, size, first)
      && resume == PeakOf(frames, heard) <= size && chunk == ChunkOf(frames, heard)
      && 0 < chunk <= MAX_UPLOAD_CHUNK_BYTES
      && (journal.Some? ==> journal.value.offset == Max(first.value.offset, resume))
    }

    /**
    The loop up to the daemon's `Ack`, then the journal check.  It agrees exactly when the largest
    offset announced is at least the journaled one, and without a journal exactly when nothing but 0
    was announced; it breaks off only for a limit reached or for the last frame received.
    */
    method Negotiate() returns (r: Step, chunk: nat, resume: nat)
      requires JournalSaved() && heard == 0
      modifies `journal, `saves, `heard
      ensures Kept()
      ensures r == Proceed || r == Broken(JournalMismatch) ==>
        && heard > 0 && frames[heard - 1] == Ack && AllAcceptable(frames, heard - 1, size, old(journal))
        && resume == PeakOf(frames, heard - 1) <= size && chunk == ChunkOf(frames, heard - 1)
        && 0 < chunk <= MAX_UPLOAD_CHUNK_BYTES
        && (r == Proceed <==> Agrees(resume, old(journal)))
      ensures r == Proceed && journal.Some? ==> journal.value.offset == resume
      ensures r == Interrupted ==> AllAcceptable(frames, heard, size, old(journal))
      ensures r.Broken? && r.fault !in {JournalMismatch, JournalSaveFailed} ==>
        && heard > 0 && AllAcceptable(frames, heard - 1, size, old(journal))
        && Blames(r.fault, Acceptable(frames[heard - 1], size, old(journal)))
      ensures r == Broken(JournalSaveFailed) ==> heard > 0 && AllAcceptable(frames, heard - 1, size, old(journal))
      ensures Excused(r)
    {
      chunk, resume := SFTP_SAFE_CHUNK_BYTES, 0;
      while true
        invariant Negotiating(old(journal), chunk, resume)
        decreases |frames| - heard
      {
        var reply := Receive(maxWaits - writes);
        if reply.None? {
          return Interrupted, chunk, resume;
        }
        match reply.value {
          case Report(p) =>
            r, chunk, resume := Consider(p, chunk, resume);
            if r != Proceed {
              return;
            }
          case Ack => break;
          case _ => return Broken(FaultOf(reply.value)), chunk, resume;
        }
      }
      r := if (if journal.Some? then resume == journal.value.offset else resume == 0) then Proceed
           else Broken(JournalMismatch);
    }

    /**
    The wait after a chunk: good reports, then its acknowledgement.  It breaks off only for a limit
    reached or for the last frame received.
    */
    method AwaitAck() returns (r: Step)
      requires JournalSaved()
      modifies `journal, `saves, `heard
      ensures Kept()
      ensures r == Proceed ==>
        old(heard) < heard && frames[heard - 1] == Ack && GoodReports(frames, old(heard), heard - 1, old(journal))
      ensures r == Interrupted ==> GoodReports(frames, old(heard), heard, old(journal))
      ensures r.Broken? ==> old(heard) < heard && GoodReports(frames, old(heard), heard - 1, old(journal))
      ensures r.Broken? && r.fault != JournalSaveFailed ==> Blames(r.fault, GoodReport(frames[heard - 1], old(journal)))
      ensures r == Broken(JournalSaveFailed) ==> frames[heard - 1].Report?
      ensures Excused(r)
    {
      while true
        invariant Kept() && GoodReports(frames, old(heard), heard, old(journal))
        decreases |frames| - heard
      {
        var reply := Receive(maxWaits - writes);
        if reply.None? {
          return Interrupted;
        }
        match reply.value {
          case Report(p) =>
            r := NoteProgress(p);
            if r != Proceed {
              return;
            }
          case Ack => return Proceed;
          case _ => return Broken(FaultOf(reply.value));
        }
      }
    }

    /** The chunks acknowledged so far are the acknowledgements since frame `from`, and nothing was out of place. */
    ghost predicate Conversing(from: nat, first: Option<Journal>)
      reads this
    {
      && from <= heard <= |frames| && Conversation(frames, from, heard, first)
      && AcksOf(frames, heard) - AcksOf(frames, from) == Begins(log) - Outstanding(log)
    }

    /** The same up to the last frame received, which is the cause of the fault. */
    ghost predicate Spoilt(from: nat, first: Option<Journal>, f: Fault)
      reads this
    {
      && from < heard <= |frames| && Conversation(frames, from, heard - 1, first)
      && AcksOf(frames, heard) - AcksOf(frames, from) == Begins(log) - Outstanding(log)
      && (if f == JournalSaveFailed then frames[heard - 1].Report?
          else Blames(f, GoodReport(frames[heard - 1], first)))
    }

    /** Where the exchange of chunks stands after a step. */
    ghost predicate Stands(r: Step, from: nat, first: Option<Journal>)
      reads this
    {
      && r != Broken(JournalMismatch)
      && (if r.Broken? && r.fault !in {WriteFailed, SourceFailed} then Spoilt(from, first, r.fault)
          else Conversing(from, first))
    }

    /** Logs the chunk before its write begins, and waits for its acknowledgement. */
    method SendChunk(data: Bytes, chunk: nat, ghost from: nat, ghost first: Option<Journal>) returns (r: Step)
      requires Orderly(log, chunk) && Outstanding(log) == 0 && 0 < |data| <= chunk
      requires JournalSaved() && Advances(first, journal) && Conversing(from, first)
      modifies `journal, `saves, `writes, `heard, `log
      ensures Kept() && Orderly(log, chunk)
      ensures Chunks(log) == old(Chunks(log)) + data && Begins(log) == old(Begins(log)) + 1
      ensures Outstanding(log) == if r == Proceed then 0 else 1
      ensures Stands(r, from, first) && Excused(r) && r != Broken(SourceFailed)
      ensures old(writes) <= writes <= old(writes) + 1 && (r == Proceed ==> writes == old(writes) + 1)
    {
      log := Begun(log, data);
      r := Write();
      if r == Proceed {
        r := AwaitItsAck(from, first);
        if r == Proceed {
          log := Acked(log);
        }
      }
    }

    /** `AwaitAck` as part of the conversation since frame `from`. */
    method AwaitItsAck(ghost from: nat, ghost first: Option<Journal>) returns (r: Step)
      requires JournalSaved() && Advances(first, journal) && from <= heard && Conversation(frames, from, heard, first)
      modifies `journal, `saves, `heard
      ensures Kept() && Excused(r) && r != Broken(SourceFailed) && r != Broken(JournalMismatch)
      ensures r != Broken(WriteFailed)
      ensures r == Proceed ==>
        Conversation(frames, from, heard, first) && AcksOf(frames, heard) == AcksOf(frames, old(heard)) + 1
      ensures r == Interrupted ==>
        Conversation(frames, from, heard, first) && AcksOf(frames, heard) == AcksOf(frames, old(heard))
      ensures r.Broken? ==>
        && from < heard && Conversation(frames, from, heard - 1, first)
        && AcksOf(frames, heard) == AcksOf(frames, old(heard))
        && (if r.fault == JournalSaveFailed then frames[heard - 1].Report?
            else Blames(r.fault, GoodReport(frames[heard - 1], first)))
    {
      r := AwaitAck();
      ReportsContinue(frames, from, old(heard), if r == Interrupted then heard else heard - 1, first, old(journal));
    }

    /** The source has been sent from `start` to `at`, and every chunk acknowledged. */
    ghost predicate Sending(start: nat, at: nat, chunk: nat, from: nat, first: Option<Journal>)
      reads this
    {
      && start <= at <= |source| && 0 < chunk <= MAX_UPLOAD_CHUNK_BYTES
      && JournalSaved() && Advances(first, journal) && Conversing(from, first)
      && Orderly(log, chunk) && Outstanding(log) == 0 && Chunks(log) == source[start..at]
      && fetches == Begins(log)
    }

    /** Reads and sends the next chunk, the size of which is the reader's choice. */
    method SendNext(start: nat, at: nat, chunk: nat, ghost from: nat, ghost first: Option<Journal>)
      returns (r: Step, next: nat)
      requires Sending(start, at, chunk, from, first) && at < |source| && fetches < maxFetches
      modifies `journal, `saves, `fetches, `writes, `heard, `log
      ensures Kept() && Orderly(log, chunk) && Chunks(log) <= source[start..]
      ensures r == Proceed ==> at < next && Sending(start, next, chunk, from, first)
      ensures r != Proceed ==> Outstanding(log) == 1 && r != Broken(SourceFailed)
      ensures Stands(r, from, first) && Excused(r)
      ensures Begins(log) == old(Begins(log)) + 1 && fetches == old(fetches) + 1
      ensures old(writes) <= writes <= old(writes) + 1 && (r == Proceed ==> writes == old(writes) + 1)
    {
      fetches := fetches + 1;
      var n := Max(1, Min(readSize(fetches), Min(chunk, |source| - at)));
      SliceGoesOn(source, start, at, n);
      next := at + n;
      r := SendChunk(source[at..next], chunk, from, first);
    }

    /** Sends the source from `resume` on, one acknowledged chunk at a time. */
    method SendSource(chunk: nat, resume: nat, ghost first: Option<Journal>) returns (r: Step)
      requires 0 < chunk <= MAX_UPLOAD_CHUNK_BYTES && log == Nothing && JournalSaved() && fetches == 0
      requires Advances(first, journal)
      modifies `journal, `saves, `fetches, `writes, `heard, `log
      ensures Kept() && Orderly(log, chunk)
      ensures Chunks(log) <= source[Min(resume, |source|)..]
      ensures r == Proceed ==> Chunks(log) == source[Min(resume, |source|)..] && Outstanding(log) == 0
      ensures r != Proceed && r != Broken(SourceFailed) ==> Outstanding(log) == 1
      ensures Stands(r, old(heard), first) && Excused(r)
      ensures fetches <= Begins(log) + 1 && writes <= old(writes) + Begins(log)
      ensures r == Proceed ==> writes == old(writes) + Begins(log)
    {
      var start := Min(resume, |source|);
      var at := start;
      while at < |source|
        invariant Kept() && Sending(start, at, chunk, old(heard), first)
        invariant writes == old(writes) + Begins(log)
        decreases |source| - at
      {
        if fetches >= maxFetches {
          return Broken(SourceFailed);
        }
        r, at := SendNext(start, at, chunk, old(heard), first);
        if r != Proceed {
          return;
        }
      }
      assert source[start..at] == source[start..];
      // The end of the source is found by one more read.
      if fetches >= maxFetches {
        return Broken(SourceFailed);
      }
      fetches := fetches + 1;
      r := Proceed;
    }

    /** `read_daemon_upload_commit_response` for as long as its caller waits. */
    method AwaitCommit(limit: int) returns (r: UploadResult)
      requires heard <= |frames|
      modifies `heard
      ensures old(heard) <= heard <= |frames|
      ensures r == Verdict(frames, old(heard), size, if limit < 0 then 0 else limit)
    {
      ghost var k := ReportEnd(frames, heard);
      while true
        invariant old(heard) <= heard <= k && (heard > old(heard) ==> heard <= limit)
        decreases |frames| - heard
      {
        var reply := Receive(limit);
        if reply.None? {
          return CommitOutcomeUnknown;
        }
        match reply.value {
          case Report(p) =>
            if !p.valid {
              return InvalidProgress;
            }
          case TransferDone(bytes) => return if bytes == size then Stored(bytes) else SizeMismatch(bytes);
          case ErrorFrame(text) => return Refused(text);
          case _ => return CommitOutcomeUnknown;
        }
      }
    }

    /** The negotiation ended with the acknowledgement at frame `s`, and its outcome stands. */
    ghost predicate Negotiated(s: nat, first: Option<Journal>)
      reads this
    {
      && s < heard <= |frames| && frames[s] == Ack && AllAcceptable(frames, s, size, first)
      && PeakOf(frames, s) <= size && 0 < ChunkOf(frames, s) <= MAX_UPLOAD_CHUNK_BYTES
      && Agrees(PeakOf(frames, s), first)
      && Orderly(log, ChunkOf(frames, s)) && Chunks(log) <= source[Min(PeakOf(frames, s), |source|)..]
    }

    /** All of the source from the announced offset on has been sent and acknowledged. */
    ghost predicate AllSent(s: nat, first: Option<Journal>)
      reads this
    {
      && Negotiated(s, first) && Conversing(s + 1, first)
      && Outstanding(log) == 0 && Chunks(log) == source[Min(PeakOf(frames, s), |source|)..]
    }

    /** Why the operation ended during negotiation: a limit reached, or the last frame received. */
    ghost predicate StoppedEarly(r: Step, first: Option<Journal>)
      reads this
    {
      && r != Proceed && Excused(r) && log == Nothing && fetches == 0 && writes <= 1 && heard <= |frames|
      && (if r == Interrupted || r == Broken(WriteFailed) then AllAcceptable(frames, heard, size, first)
          else
            && 0 < heard && AllAcceptable(frames, heard - 1, size, first)
            && (if r == Broken(JournalMismatch) then
                  frames[heard - 1] == Ack && !Agrees(PeakOf(frames, heard - 1), first)
                else r == Broken(JournalSaveFailed) ||
                     (r.Broken? && Blames(r.fault, Acceptable(frames[heard - 1], size, first)))))
    }

    /** Why it ended while chunks were sent: a limit reached, or the last frame received. */
    ghost predicate StoppedSending(r: Step, s: nat, first: Option<Journal>)
      reads this
    {
      && r != Proceed && Excused(r) && fetches <= Begins(log) + 1 && writes <= 1 + Begins(log)
      && Negotiated(s, first) && Stands(r, s + 1, first)
      && (r != Broken(SourceFailed) ==> Outstanding(log) == 1)
    }

    ghost predicate Stopped(r: Step, negotiated: Option<nat>, first: Option<Journal>)
      reads this
    {
      match negotiated
      case None => StoppedEarly(r, first)
      case Some(s) => StoppedSending(r, s, first)
    }

    /**
    The operation whose future the cancellation and the deadline may drop.  The end frame is begun
    only after the source was sent from the offset the daemon announced, in chunks of the size it
    announced, each of them acknowledged; otherwise there is a reason.
    */
    method Operate() returns (r: Step, ghost negotiated: Option<nat>)
      requires Fresh()
      modifies this
      ensures Kept()
      ensures endStarted ==> negotiated.Some? && AllSent(negotiated.value, old(journal))
      ensures !endStarted ==> Stopped(r, negotiated, old(journal))
      ensures r == Proceed ==> endStarted && writes == Begins(log) + 2 && heard + writes <= maxWaits
      ensures endStarted && r != Proceed ==> writes == Begins(log) + 1
      ensures endStarted && r != Proceed ==>
        if r == Interrupted then heard + writes >= maxWaits else r == Broken(WriteFailed) && writes >= maxWrites
    {
      negotiated := None;
      r := Write();
      if r != Proceed {
        return;
      }
      var chunk, resume;
      r, chunk, resume := Negotiate();
      if r != Proceed {
        return;
      }
      negotiated := Some(heard - 1);
      r := SendAndEnd(chunk, resume, old(journal));
    }

    /** The operation once it is negotiated. */
    method SendAndEnd(chunk: nat, resume: nat, ghost first: Option<Journal>) returns (r: Step)
      requires JournalSaved() && Advances(first, journal)
      requires log == Nothing && !endStarted && fetches == 0 && writes == 1
      requires heard > 0 && Negotiated(heard - 1, first)
      requires chunk == ChunkOf(frames, heard - 1) && resume == PeakOf(frames, heard - 1)
      modifies this
      ensures Kept()
      ensures endStarted ==> AllSent(old(heard) - 1, first)
      ensures !endStarted ==> StoppedSending(r, old(heard) - 1, first)
      ensures r == Proceed ==> endStarted && writes == Begins(log) + 2 && heard + writes <= maxWaits
      ensures endStarted && r != Proceed ==> writes == Begins(log) + 1
      ensures endStarted && r != Proceed ==>
        if r == Interrupted then heard + writes >= maxWaits else r == Broken(WriteFailed) && writes >= maxWrites
    {
      r := SendSource(chunk, resume, first);
      if r != Proceed {
        return;
      }
      endStarted := true;
      r := Write();
    }

    /**
    The daemon negotiates up to an acknowledgement at frame `s`, with an offset that agrees with the
    journal, and up to frame `m` it acknowledges as often as there can be chunks.
    */
    ghost predicate Willing(s: nat, m: nat, first: Option<Journal>) {
      && s < m <= |frames| && AllAcceptable(frames, s, size, first) && frames[s] == Ack
      && Agrees(PeakOf(frames, s), first) && Conversation(frames, s + 1, m, first)
      && AcksOf(frames, m) - AcksOf(frames, s + 1) >= |source| - Min(PeakOf(frames, s), |source|)
    }

    /** Nothing on this side runs out before `m` frames and one write and read for each byte. */
    ghost predicate Ample(m: nat) {
      maxWaits > m + |source| + 1 && maxWrites > |source| + 1 && maxFetches > |source| + 1 && maxSaves >= m
    }

    /** The negotiation has one end: reports come before the first acknowledgement. */
    lemma FirstAckIsOne(t: nat, s: nat, first: Option<Journal>)
      requires t < |frames| && s < |frames| && frames[t] == Ack && frames[s] == Ack
      requires AllAcceptable(frames, t, size, first) && AllAcceptable(frames, s, size, first)
      ensures t == s
    {
      assert !Acceptable(frames[t], size, first) && !Acceptable(frames[s], size, first);
    }

    lemma EarlyStopHasCause(end: Step, first: Option<Journal>, s: nat, m: nat)
      requires StoppedEarly(end, first) && Willing(s, m, first)
      ensures !Ample(m)
    {
      assert heard > s + 1 ==> Acceptable(frames[s], size, first);
      assert 0 < heard <= s ==> Acceptable(frames[heard - 1], size, first);
    }

    lemma SendingStopHasCause(end: Step, t: nat, first: Option<Journal>, s: nat, m: nat)
      requires StoppedSending(end, t, first) && Willing(s, m, first)
      ensures !Ample(m)
    {
      FirstAckIsOne(t, s, first);
      ChunksAreBytes(log, ChunkOf(frames, t));
      if m <= heard {
        AcksGrow(frames, m, heard);
      }
    }

    /** An upload that a willing daemon waits for stops before its end frame only if something runs out. */
    lemma StopHasCause(end: Step, negotiated: Option<nat>, first: Option<Journal>)
      requires Stopped(end, negotiated, first)
      ensures forall s: nat, m: nat :: Willing(s, m, first) ==> !Ample(m)
    {
      forall s: nat, m: nat | Willing(s, m, first) ensures !Ample(m) {
        match negotiated
        case None => EarlyStopHasCause(end, first, s, m);
        case Some(t) => SendingStopHasCause(end, t, first, s, m);
      }
    }

    /**
    `upload_file_via_daemon`. Once the write of the end frame has begun, the result is the verdict of
    the frames after the last acknowledgement, as many as arrive while the client waits, never a plain
    cancellation, timeout or write error; before that it never claims a commit.  `raced` says that
    the cancellation wins over an operation that has just ended; `sent` is how many frames had been
    received when the end frame was begun.
    */
    method UploadFile(grace: nat, raced: bool)
      returns (r: UploadResult, end: Step, ghost negotiated: Option<nat>, ghost sent: nat)
      requires Fresh()
      modifies this
      ensures JournalSaved() && Advances(old(journal), journal)
      ensures endStarted ==> AllSentBy(sent, negotiated, old(journal))
      ensures endStarted && size == |source| ==>
        source[..PeakOf(frames, negotiated.value)] + Chunks(log) == source
      ensures endStarted ==>
        var waits := if end == Proceed && !raced then maxWaits - sent - Begins(log) - 2 else 0;
        waits >= 0 && r == Verdict(frames, sent, size, sent + waits + grace)
      ensures endStarted && end != Proceed ==> maxWaits <= sent + Begins(log) + 1 || maxWrites <= Begins(log) + 1
      ensures !endStarted ==> Stopped(end, negotiated, old(journal))
      ensures !endStarted ==>
        r == if raced || end == Interrupted then StoppedBeforeCommit else FailedBeforeCommit(end.fault)
      ensures forall s: nat, m: nat :: Willing(s, m, old(journal)) && Ample(m) ==> endStarted
    {
      end, negotiated := Operate();
      sent := heard;
      if endStarted {
        var waits := if end == Proceed && !raced then maxWaits - heard - writes else 0;
        r := AwaitCommit(heard + waits + grace);
      } else {
        StopHasCause(end, negotiated, old(journal));
        r := if raced || end == Interrupted then StoppedBeforeCommit else FailedBeforeCommit(end.fault);
      }
    }

    /** `AllSent` when `sent` frames had been received. */
    ghost predicate AllSentBy(sent: nat, negotiated: Option<nat>, first: Option<Journal>)
      reads this
    {
      && negotiated.Some? && var s := negotiated.value;
      && s < sent <= |frames| && frames[s] == Ack && AllAcceptable(frames, s, size, first)
      && PeakOf(frames, s) <= size && Agrees(PeakOf(frames, s), first)
      && Orderly(log, ChunkOf(frames, s)) && ChunkOf(frames, s) <= MAX_UPLOAD_CHUNK_BYTES
      && Conversation(frames, s + 1, sent, first) && AcksOf(frames, sent) - AcksOf(frames, s + 1) == Begins(log)
      && Outstanding(log) == 0 && Chunks(log) == source[Min(PeakOf(frames, s), |source|)..]
    }
  }
}
