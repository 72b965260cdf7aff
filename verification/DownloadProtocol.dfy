/**
A resumable download as a state machine: a partial file, a protected journal that is replaced
atomically, and a client that may be cancelled, may fail at any file operation, or may crash
between any two of them and be started again.

An `Event` carries everything the outside decides (frames, I/O outcomes, what a crash leaves),
so `Apply` is a function.  The partial file is a synced prefix plus a tail that a crash may
change or drop.  SHA-256 is a parameter `h`.
*/
module DownloadProtocol {
  import opened Common

  const DURABLE_WINDOW_BYTES: nat := 8 * 1024 * 1024
  const MAX_CHUNK_BYTES: nat := 32 * 1024
  const MAX_TRANSFER_BYTES: nat := 16 * 1024 * 1024 * 1024

  type Hash = Bytes -> string

  /** The profile, remote source, local target and backend a journal belongs to. */
  datatype Subject = Subject(profileName: string, profileId: string, generation: nat,
                             remote: string, local: string, backend: string)

  datatype Journal = Journal(subject: Subject, transferId: string,
                             size: Option<nat>, sha256: Option<string>, durable: nat)
  {
    /** What loading a journal checks besides its subject. */
    predicate Coherent() {
      && (size.Some? <==> sha256.Some?)
      && (if size.Some? then durable <= size.value else durable == 0)
    }

    predicate Fresh() {
      size == None && sha256 == None && durable == 0
    }
  }

  datatype PartialFile = PartialFile(synced: Bytes, tail: Bytes)
  {
    function Content(): Bytes {
      synced + tail
    }

    function Synced(): (f: PartialFile)
      ensures f.Content() == f.synced == Content()
      ensures tail == [] ==> f == this
    {
      assert tail == [] ==> synced + tail == synced;
      PartialFile(synced + tail, [])
    }

    function Append(data: Bytes): (f: PartialFile)
      ensures f.Content() == Content() + data
    {
      assert synced + (tail + data) == synced + tail + data;
      PartialFile(synced, tail + data)
    }

    /** `ftruncate`: cuts the file, or extends it with zeros. */
    function SetLen(n: nat): (f: PartialFile)
      ensures |f.Content()| == n
      ensures n <= |Content()| ==> f.Content() == Content()[..n]
      ensures n > |Content()| ==> Content() < f.Content()
    {
      if n <= |synced| then PartialFile(synced[..n], [])
      else if n <= |synced| + |tail| then PartialFile(synced, tail[..n - |synced|])
      else
        var grown := PartialFile(synced, tail + seq(n - |synced| - |tail|, i => 0));
        assert grown.Content() == Content() + seq(n - |synced| - |tail|, i => 0);
        grown
    }
  }

  /** `partial` is the file the journal names; `local` is the destination. */
  datatype Disk = Disk(journal: Option<Journal>, partial: Option<PartialFile>, local: Option<Bytes>)

  datatype Result = Ok(bytes: nat) | Err

  datatype Phase =
    | Loaded            // journal in memory, partial not yet opened
    | Truncating | TruncateSync
    | Ready             // partial is exactly as long as the durable offset
    | Streaming
    | WindowSync | WindowRecord | AckDue
    | FinalSync | FinalRecord
    | Verified | Committing | Linked | Confirming | Closing
    | Failing | FailSync
    | Finished(result: Result)

  datatype Ack = Ack(confirmed: nat, durable: nat)

  /** The local variables of the transfer loop; `hashed` is what the hasher has consumed. */
  datatype Transfer = Transfer(hashed: Bytes, received: nat, durable: nat,
                               announced: Option<nat>, digest: Option<string>, acks: seq<Ack>)

  const NO_TRANSFER := Transfer([], 0, 0, None, None, [])

  /** `linked` says that this run has installed its file and made sure of it. */
  datatype Run = Run(phase: Phase, state: Journal, resume: nat, t: Transfer, linked: bool := false)

  datatype World = World(disk: Disk, run: Option<Run>)

  /** Reading the journal and bringing the partial file to its durable prefix. */
  datatype OpeningEvent =
    | CreateJournal(journal: Journal, stray: Option<PartialFile>, committed: bool, ok: bool)
    | LoadJournal(subject: Subject)
    | OpenPartial(ok: bool)
    | TruncatePartial(ok: bool)
    | SyncTruncated(ok: bool)
    | Rehash(ok: bool)

  /** The transfer loop: one daemon frame, or the file operation it causes. */
  datatype LoopEvent =
    | Chunk(data: Bytes, written: nat, ok: bool)
    | Progress(total: nat, valid: bool)
    | Digest(transferId: string, sha256: string, committed: bool, ok: bool)
    | Done(bytes: nat)
    | Refused(hungUp: bool)   // the daemon hung up, reported an error, or sent something else
    | Abort                   // cancelled, or past the deadline
    | SyncWindow(ok: bool)
    | RecordWindow(committed: bool, ok: bool)
    | SendAck(ok: bool)

  /** From the verified last byte to the installed file. */
  datatype CommitEvent =
    | SyncFinal(ok: bool)
    | RecordFinal(committed: bool, ok: bool)
    | SyncCommit(ok: bool)
    | Link(linked: bool, ok: bool)
    | Unlink(removed: bool)
    | Confirm(ok: bool)
    | RemoveJournal(removed: bool)

  /** Failure, process end, and everything that is not this client. */
  datatype EndingEvent =
    | FailTruncate(ok: bool)
    | FailedSync(ok: bool)
    | Exit
    | Crash(left: Option<PartialFile>)
    | Between(left: Option<PartialFile>, local: Option<Bytes>)
    | Rival(content: Bytes)
    | LateUnlink              // the removal of an installed partial that was not waited for, or by the drop guard

  datatype Event = Opening(o: OpeningEvent) | Loop(l: LoopEvent) | Commit(c: CommitEvent) | Ending(x: EndingEvent)

  predicate IsSha256Text(s: string) {
    |s| == 64 && forall i :: 0 <= i < |s| ==> '0' <= s[i] <= '9' || 'a' <= s[i] <= 'f'
  }

  /** What may remain of a partial file: nothing, or its synced prefix with any tail. */
  predicate MayRemain(was: Option<PartialFile>, left: Option<PartialFile>) {
    left.Some? ==> was.Some? && left.value.synced == was.value.synced
  }

  predicate InPhase(w: World, phase: Phase) {
    w.run.Some? && w.run.value.phase == phase
  }

  predicate HasPartial(w: World) {
    w.disk.partial.Some?
  }

  predicate OpeningEnabled(w: World, e: OpeningEvent) {
    match e
    case CreateJournal(j, _, committed, ok) =>
      (ok ==> committed) && w.run == None && w.disk.journal == None && j.Fresh()
    case LoadJournal(subject) =>
      && w.run == None
      && w.disk.journal.Some? && w.disk.journal.value.subject == subject && w.disk.journal.value.Coherent()
    case OpenPartial(_) => InPhase(w, Loaded)
    case TruncatePartial(_) => InPhase(w, Truncating) && HasPartial(w)
    case SyncTruncated(_) => InPhase(w, TruncateSync) && HasPartial(w)
    case Rehash(ok) =>
      InPhase(w, Ready) && HasPartial(w) && (ok ==> w.run.value.state.durable <= |w.disk.partial.value.Content()|)
  }

  predicate LoopEnabled(w: World, e: LoopEvent) {
    match e
    case Chunk(data, written, _) => InPhase(w, Streaming) && HasPartial(w) && written <= |data|
    case Progress(_, _) => InPhase(w, Streaming)
    case Digest(_, _, committed, ok) => InPhase(w, Streaming) && (ok ==> committed)
    case Done(_) => InPhase(w, Streaming)
    case Refused(_) => InPhase(w, Streaming)
    case Abort => InPhase(w, Streaming) || InPhase(w, WindowSync) || InPhase(w, AckDue) || InPhase(w, FinalSync)
    case SyncWindow(_) => InPhase(w, WindowSync) && HasPartial(w)
    case RecordWindow(committed, ok) => InPhase(w, WindowRecord) && (ok ==> committed)
    case SendAck(_) => InPhase(w, AckDue)
  }

  predicate CommitEnabled(w: World, e: CommitEvent) {
    match e
    case SyncFinal(_) => InPhase(w, FinalSync) && HasPartial(w)
    case RecordFinal(committed, ok) => InPhase(w, FinalRecord) && (ok ==> committed)
    case SyncCommit(_) => InPhase(w, Verified) && HasPartial(w)
    case Link(linked, ok) =>
      InPhase(w, Committing) && HasPartial(w) && (ok ==> linked) && (linked ==> w.disk.local == None)
    case Unlink(_) => InPhase(w, Linked)
    case Confirm(_) => InPhase(w, Confirming)
    case RemoveJournal(_) => InPhase(w, Closing)
  }

  predicate EndingEnabled(w: World, e: EndingEvent) {
    match e
    case FailTruncate(_) => InPhase(w, Failing)
    case FailedSync(_) => InPhase(w, FailSync) && HasPartial(w)
    case Exit => w.run.Some? && w.run.value.phase.Finished?
    case Crash(left) => w.run.Some? && MayRemain(w.disk.partial, left)
    case Between(left, _) => w.run == None && MayRemain(w.disk.partial, left)
    case Rival(_) => w.disk.local == None
    case LateUnlink => w.run.Some? && w.run.value.linked && !w.run.value.phase.Linked?
  }

  predicate Enabled(w: World, e: Event) {
    match e
    case Opening(o) => OpeningEnabled(w, o)
    case Loop(l) => LoopEnabled(w, l)
    case Commit(c) => CommitEnabled(w, c)
    case Ending(x) => EndingEnabled(w, x)
  }

  function WithRun(w: World, phase: Phase): World
    requires w.run.Some?
  {
    w.(run := Some(w.run.value.(phase := phase)))
  }

  function WithPartial(w: World, f: PartialFile): World {
    w.(disk := w.disk.(partial := Some(f)))
  }

  /** `DownloadResumeJournal::record_durable`, with what the atomic write did. */
  function RecordDurable(w: World, offset: nat, committed: bool, ok: bool, next: Phase): World
    requires w.run.Some?
  {
    var r := w.run.value;
    if r.state.size == None || offset > r.state.size.value || offset < r.state.durable then
      WithRun(w, Failing)
    else if offset == r.state.durable then
      WithRun(w, next)
    else
      var state := r.state.(durable := offset);
      World(w.disk.(journal := if committed then Some(state) else w.disk.journal),
            Some(r.(state := state, phase := if ok then next else Failing)))
  }

  /** `DownloadResumeJournal::record_remote_identity` and the digest it lets through. */
  function RecordIdentity(w: World, sha256: string, committed: bool, ok: bool): World
    requires w.run.Some? && w.run.value.t.announced.Some?
  {
    var r := w.run.value;
    var accepted := r.(t := r.t.(digest := Some(sha256)));
    if r.state.size == None && r.state.sha256 == None then
      var state := r.state.(size := r.t.announced, sha256 := Some(sha256));
      World(w.disk.(journal := if committed then Some(state) else w.disk.journal),
            Some(if ok then accepted.(state := state) else r.(state := state, phase := Failing)))
    else if r.state.size == r.t.announced && r.state.sha256 == Some(sha256) then
      w.(run := Some(accepted))
    else
      WithRun(w, Failing)
  }

  function ReceiveChunk(w: World, data: Bytes): World
    requires w.run.Some? && HasPartial(w)
  {
    var r := w.run.value;
    var t := r.t.(hashed := r.t.hashed + data, received := r.t.received + |data|);
    var phase :=
      if t.received > MAX_TRANSFER_BYTES then Failing
      else if t.received - t.durable >= DURABLE_WINDOW_BYTES then WindowSync
      else AckDue;
    WithPartial(w, w.disk.partial.value.Append(data)).(run := Some(r.(t := t, phase := phase)))
  }

  function ApplyOpening(w: World, e: OpeningEvent): World
    requires OpeningEnabled(w, e)
  {
    match e
    case CreateJournal(j, stray, committed, ok) =>
      World(if committed then w.disk.(journal := Some(j), partial := stray) else w.disk,
            if ok then Some(Run(Loaded, j, 0, NO_TRANSFER)) else None)
    case LoadJournal(_) =>
      var j := w.disk.journal.value;
      w.(run := Some(Run(Loaded, j, j.durable, NO_TRANSFER)))
    case OpenPartial(ok) =>
      var durable := w.run.value.state.durable;
      if !ok then WithRun(w, Finished(Err))
      else (match w.disk.partial
            case None =>
              if durable == 0 then WithRun(WithPartial(w, PartialFile([], [])), Ready)
              else WithRun(w, Finished(Err))
            case Some(f) =>
              var length := |f.Content()|;
              WithRun(w, if length < durable then Finished(Err) else if length == durable then Ready else Truncating))
    case TruncatePartial(ok) =>
      if ok then WithRun(WithPartial(w, w.disk.partial.value.SetLen(w.run.value.state.durable)), TruncateSync)
      else WithRun(w, Finished(Err))
    case SyncTruncated(ok) =>
      if ok then WithRun(WithPartial(w, w.disk.partial.value.Synced()), Ready) else WithRun(w, Finished(Err))
    case Rehash(ok) =>
      var r := w.run.value;
      var offset := r.state.durable;
      if ok then
        var prefix := w.disk.partial.value.Content()[..offset];
        var t := NO_TRANSFER.(hashed := prefix, received := offset, durable := offset);
        w.(run := Some(r.(phase := Streaming, t := t)))
      else WithRun(w, Failing)
  }

  function ApplyLoop(h: Hash, w: World, e: LoopEvent): World
    requires LoopEnabled(w, e)
  {
    match e
    case Chunk(data, written, ok) =>
      if |data| == 0 || |data| > MAX_CHUNK_BYTES then WithRun(w, Failing)
      else if ok then ReceiveChunk(w, data)
      else WithRun(WithPartial(w, w.disk.partial.value.Append(data[..written])), Failing)
    case Progress(total, valid) =>
      var r := w.run.value;
      w.(run := Some(r.(t := r.t.(announced := Some(total)), phase := if valid then Streaming else Failing)))
    case Digest(transferId, sha256, committed, ok) =>
      var r := w.run.value;
      if transferId == r.state.transferId && IsSha256Text(sha256) && r.t.announced.Some?
      then RecordIdentity(w, sha256, committed, ok)
      else WithRun(w, Failing)
    case Done(bytes) =>
      var t := w.run.value.t;
      WithRun(w, if bytes == t.received && t.digest == Some(h(t.hashed)) then FinalSync else Failing)
    case Refused(_) => WithRun(w, Failing)
    case Abort => WithRun(w, Failing)
    case SyncWindow(ok) =>
      var r := w.run.value;
      if ok then
        WithPartial(w, w.disk.partial.value.Synced())
        .(run := Some(r.(phase := WindowRecord, t := r.t.(durable := r.t.received))))
      else WithRun(w, Failing)
    case RecordWindow(committed, ok) => RecordDurable(w, w.run.value.t.durable, committed, ok, AckDue)
    case SendAck(ok) =>
      var r := w.run.value;
      if ok then w.(run := Some(r.(phase := Streaming, t := r.t.(acks := r.t.acks + [Ack(r.t.received, r.t.durable)]))))
      else WithRun(w, Failing)
  }

  function ApplyCommit(w: World, e: CommitEvent): World
    requires CommitEnabled(w, e)
  {
    match e
    case SyncFinal(ok) =>
      if ok then WithRun(WithPartial(w, w.disk.partial.value.Synced()), FinalRecord) else WithRun(w, Failing)
    case RecordFinal(committed, ok) => RecordDurable(w, w.run.value.t.received, committed, ok, Verified)
    case SyncCommit(ok) =>
      if ok then WithRun(WithPartial(w, w.disk.partial.value.Synced()), Committing) else WithRun(w, Finished(Err))
    case Link(linked, ok) =>
      var disk := if linked then w.disk.(local := Some(w.disk.partial.value.Content())) else w.disk;
      World(disk, Some(w.run.value.(linked := ok, phase := if ok then Linked else Finished(Err))))
    case Unlink(removed) =>
      WithRun(if removed then w.(disk := w.disk.(partial := None)) else w, Confirming)
    case Confirm(ok) => WithRun(w, if ok then Closing else Finished(Err))
    case RemoveJournal(removed) =>
      WithRun(if removed then w.(disk := w.disk.(journal := None)) else w, Finished(Ok(w.run.value.t.received)))
  }

  function ApplyEnding(w: World, e: EndingEvent): World
    requires EndingEnabled(w, e)
  {
    match e
    case FailTruncate(ok) =>
      if ok && HasPartial(w)
      then WithRun(WithPartial(w, w.disk.partial.value.SetLen(w.run.value.state.durable)), FailSync)
      else WithRun(w, Finished(Err))
    case FailedSync(ok) =>
      WithRun(if ok then WithPartial(w, w.disk.partial.value.Synced()) else w, Finished(Err))
    case Exit => w.(run := None)
    case Crash(left) => World(w.disk.(partial := left), None)
    case Between(left, local) => w.(disk := w.disk.(partial := left, local := local))
    case Rival(content) => w.(disk := w.disk.(local := Some(content)))
    case LateUnlink => w.(disk := w.disk.(partial := None))
  }

  function Apply(h: Hash, w: World, e: Event): World
    requires Enabled(w, e)
  {
    match e
    case Opening(o) => ApplyOpening(w, o)
    case Loop(l) => ApplyLoop(h, w, l)
    case Commit(c) => ApplyCommit(w, c)
    case Ending(x) => ApplyEnding(w, x)
  }

  // ---------------------------------------------------------------- the invariant

  predicate DiskOk(d: Disk) {
    d.journal.Some? ==>
      && d.journal.value.Coherent()
      && (d.partial.Some? ==> d.journal.value.durable <= |d.partial.value.synced|)
  }

  predicate AcksOk(acks: seq<Ack>, resume: nat) {
    && (forall i :: 0 <= i < |acks| ==>
          resume <= acks[i].durable <= acks[i].confirmed < acks[i].durable + DURABLE_WINDOW_BYTES)
    && (forall i, j :: 0 <= i < j < |acks| ==>
          acks[i].confirmed <= acks[j].confirmed && acks[i].durable <= acks[j].durable)
  }

  /** No acknowledgement claims more durable bytes than the journal on disk. */
  predicate AcksRecorded(acks: seq<Ack>, d: Disk) {
    d.journal.Some? ==> forall i :: 0 <= i < |acks| ==> acks[i].durable <= d.journal.value.durable
  }

  predicate AcksBehind(t: Transfer) {
    forall i :: 0 <= i < |t.acks| ==> t.acks[i].confirmed <= t.received && t.acks[i].durable <= t.durable
  }

  /** After a failed write the journal on disk may be older than the one in memory. */
  predicate Lagging(d: Disk, state: Journal) {
    d.journal.Some? && var j := d.journal.value;
    && j.subject == state.subject && j.transferId == state.transferId && j.durable <= state.durable
    && (j.size == None || (j.size == state.size && j.sha256 == state.sha256))
  }

  predicate Recoverable(d: Disk, state: Journal) {
    d.partial.Some? ==> state.durable <= |d.partial.value.synced|
  }

  predicate NotStarted(d: Disk, r: Run) {
    && d.journal == Some(r.state) && Recoverable(d, r.state)
    && r.t == NO_TRANSFER && r.resume == r.state.durable
  }

  /** The partial file is exactly as long as the durable offset. */
  predicate Trimmed(d: Disk, r: Run) {
    NotStarted(d, r) && d.partial.Some? && |d.partial.value.Content()| == r.state.durable
  }

  /** The open partial file, the hasher, the counters and the journal agree. */
  predicate StreamOk(d: Disk, r: Run) {
    && d.journal == Some(r.state)
    && d.partial.Some? && d.partial.value.Content() == r.t.hashed && |r.t.hashed| == r.t.received
    && r.state.durable <= |d.partial.value.synced|
    && r.resume <= r.state.durable <= r.t.durable <= r.t.received
    && (r.t.digest.Some? ==> r.state.sha256 == r.t.digest)
    && AcksBehind(r.t)
  }

  predicate Recorded(d: Disk, r: Run) {
    StreamOk(d, r) && r.state.durable == r.t.durable && r.t.received - r.t.durable < DURABLE_WINDOW_BYTES
  }

  predicate Checked(h: Hash, r: Run) {
    r.t.digest == Some(h(r.t.hashed))
  }

  predicate AllSynced(d: Disk) {
    d.partial.Some? && d.partial.value.tail == []
  }

  /** The whole file is synced, hashed, checked against the journal, and recorded as durable. */
  predicate Complete(h: Hash, d: Disk, r: Run) {
    && d.journal == Some(r.state) && d.partial == Some(PartialFile(r.t.hashed, []))
    && |r.t.hashed| == r.t.received == r.state.durable
    && r.state.sha256 == Some(h(r.t.hashed))
  }

  predicate Installed(h: Hash, d: Disk, r: Run) {
    && d.local == Some(r.t.hashed)
    && |r.t.hashed| == r.t.received == r.state.durable
    && r.state.sha256 == Some(h(r.t.hashed))
  }

  predicate PhaseOk(h: Hash, d: Disk, r: Run) {
    match r.phase
    case Loaded => NotStarted(d, r)
    case Truncating => NotStarted(d, r) && d.partial.Some?
    case TruncateSync => Trimmed(d, r)
    case Ready => Trimmed(d, r)
    case Streaming => Recorded(d, r)
    case WindowSync => StreamOk(d, r) && r.state.durable == r.t.durable
    case WindowRecord => StreamOk(d, r) && r.t.durable == r.t.received && AllSynced(d)
    case AckDue => Recorded(d, r)
    case FinalSync => StreamOk(d, r) && Checked(h, r)
    case FinalRecord => StreamOk(d, r) && Checked(h, r) && AllSynced(d)
    case Verified => Complete(h, d, r)
    case Committing => Complete(h, d, r)
    case Linked => Installed(h, d, r) && d.journal == Some(r.state)
    case Confirming => Installed(h, d, r) && d.journal == Some(r.state)
    case Closing => Installed(h, d, r) && d.journal == Some(r.state)
    case Failing => Lagging(d, r.state) && Recoverable(d, r.state)
    case FailSync => Lagging(d, r.state) && Recoverable(d, r.state)
    case Finished(result) =>
      result.Ok? ==> result.bytes == r.t.received && Installed(h, d, r) &&
                     (d.journal.Some? ==> d.journal == Some(r.state))
  }

  /** A run has linked exactly when it is past its link, and then the file is in place. */
  predicate LinkOk(h: Hash, d: Disk, r: Run) {
    && (r.linked ==> Installed(h, d, r))
    && (!r.phase.Finished? ==> (r.linked <==> r.phase.Linked? || r.phase.Confirming? || r.phase.Closing?))
  }

  predicate RunOk(h: Hash, d: Disk, r: Run) {
    && r.state.Coherent() && PhaseOk(h, d, r) && LinkOk(h, d, r)
    && AcksOk(r.t.acks, r.resume) && AcksRecorded(r.t.acks, d)
  }

  predicate Inv(h: Hash, w: World) {
    DiskOk(w.disk) && (w.run.Some? ==> RunOk(h, w.disk, w.run.value))
  }

  lemma StepKeepsInv(h: Hash, w: World, e: Event)
    requires Inv(h, w) && Enabled(w, e)
    ensures Inv(h, Apply(h, w, e))
  {
    match e
    case Opening(o) => OpeningKeepsInv(h, w, o);
    case Loop(l) => LoopKeepsInv(h, w, l);
    case Commit(c) => CommitKeepsInv(h, w, c);
    case Ending(x) => EndingKeepsInv(h, w, x);
  }

  lemma OpeningKeepsInv(h: Hash, w: World, e: OpeningEvent)
    requires Inv(h, w) && OpeningEnabled(w, e)
    ensures Inv(h, ApplyOpening(w, e))
  {
    match e
    case CreateJournal(_, _, _, _) => StartKeepsInv(h, w, e);
    case LoadJournal(_) => StartKeepsInv(h, w, e);
    case OpenPartial(_) => OpenKeepsInv(h, w, e);
    case TruncatePartial(_) => TruncateKeepsInv(h, w, e);
    case SyncTruncated(_) => TruncateKeepsInv(h, w, e);
    case Rehash(_) => RehashKeepsInv(h, w, e);
  }

  lemma LoopKeepsInv(h: Hash, w: World, e: LoopEvent)
    requires Inv(h, w) && LoopEnabled(w, e)
    ensures Inv(h, ApplyLoop(h, w, e))
  {
    match e
    case Chunk(_, _, _) => ChunkKeepsInv(h, w, e);
    case Progress(_, _) => ProgressKeepsInv(h, w, e);
    case Digest(_, _, _, _) => DigestKeepsInv(h, w, e);
    case Done(_) => DoneKeepsInv(h, w, e);
    case Refused(_) => StopKeepsInv(h, w, e);
    case Abort => StopKeepsInv(h, w, e);
    case SyncWindow(_) => SyncWindowKeepsInv(h, w, e);
    case RecordWindow(committed, ok) => RecordWindowKeepsInv(h, w, committed, ok);
    case SendAck(_) => AckKeepsInv(h, w, e);
  }

  lemma CommitKeepsInv(h: Hash, w: World, e: CommitEvent)
    requires Inv(h, w) && CommitEnabled(w, e)
    ensures Inv(h, ApplyCommit(w, e))
  {
    match e
    case SyncFinal(_) => SyncFinalKeepsInv(h, w, e);
    case RecordFinal(committed, ok) => RecordFinalKeepsInv(h, w, committed, ok);
    case SyncCommit(_) => SyncCommitKeepsInv(h, w, e);
    case Link(_, _) => LinkKeepsInv(h, w, e);
    case Unlink(_) => InstalledKeepsInv(h, w, e);
    case Confirm(_) => InstalledKeepsInv(h, w, e);
    case RemoveJournal(_) => InstalledKeepsInv(h, w, e);
  }

  lemma EndingKeepsInv(h: Hash, w: World, e: EndingEvent)
    requires Inv(h, w) && EndingEnabled(w, e)
    ensures Inv(h, ApplyEnding(w, e))
  {
    match e
    case FailTruncate(_) => FailKeepsInv(h, w, e);
    case FailedSync(_) => FailKeepsInv(h, w, e);
    case Exit => OutsideKeepsInv(h, w, e);
    case Crash(_) => OutsideKeepsInv(h, w, e);
    case Between(_, _) => OutsideKeepsInv(h, w, e);
    case Rival(_) => OutsideKeepsInv(h, w, e);
    case LateUnlink => OutsideKeepsInv(h, w, e);
  }

  lemma StartKeepsInv(h: Hash, w: World, e: OpeningEvent)
    requires Inv(h, w) && OpeningEnabled(w, e) && (e.CreateJournal? || e.LoadJournal?)
    ensures Inv(h, ApplyOpening(w, e))
  {
  }

  lemma OpenKeepsInv(h: Hash, w: World, e: OpeningEvent)
    requires Inv(h, w) && OpeningEnabled(w, e) && e.OpenPartial?
    ensures Inv(h, ApplyOpening(w, e))
  {
    assert NotStarted(w.disk, w.run.value);
  }

  lemma TruncateKeepsInv(h: Hash, w: World, e: OpeningEvent)
    requires Inv(h, w) && OpeningEnabled(w, e) && (e.TruncatePartial? || e.SyncTruncated?)
    ensures Inv(h, ApplyOpening(w, e))
  {
    assert NotStarted(w.disk, w.run.value);
  }

  lemma RehashKeepsInv(h: Hash, w: World, e: OpeningEvent)
    requires Inv(h, w) && OpeningEnabled(w, e) && e.Rehash?
    ensures Inv(h, ApplyOpening(w, e))
  {
    assert Trimmed(w.disk, w.run.value);
    if e.ok {
      var content := w.disk.partial.value.Content();
      assert content[..|content|] == content;
    }
  }

  lemma ChunkKeepsInv(h: Hash, w: World, e: LoopEvent)
    requires Inv(h, w) && LoopEnabled(w, e) && e.Chunk?
    ensures Inv(h, ApplyLoop(h, w, e))
  {
    assert Recorded(w.disk, w.run.value);
    if 0 < |e.data| <= MAX_CHUNK_BYTES && e.ok {
      ReceiveKeepsInv(h, w, e.data);
    }
  }

  lemma ReceiveKeepsInv(h: Hash, w: World, data: Bytes)
    requires Inv(h, w) && InPhase(w, Streaming) && HasPartial(w)
    ensures Inv(h, ReceiveChunk(w, data))
  {
    var n := ReceiveChunk(w, data);
    assert Recorded(w.disk, w.run.value);
    assert n.disk.partial.value.synced == w.disk.partial.value.synced;
    assert n.run.value.state == w.run.value.state;
    assert StreamOk(n.disk, n.run.value);
  }

  lemma ProgressKeepsInv(h: Hash, w: World, e: LoopEvent)
    requires Inv(h, w) && LoopEnabled(w, e) && e.Progress?
    ensures Inv(h, ApplyLoop(h, w, e))
  {
    assert Recorded(w.disk, w.run.value);
  }

  lemma DigestKeepsInv(h: Hash, w: World, e: LoopEvent)
    requires Inv(h, w) && LoopEnabled(w, e) && e.Digest?
    ensures Inv(h, ApplyLoop(h, w, e))
  {
    var r := w.run.value;
    assert Recorded(w.disk, r);
    if e.transferId == r.state.transferId && IsSha256Text(e.sha256) && r.t.announced.Some? {
      IdentityKeepsInv(h, w, e.sha256, e.committed, e.ok);
    }
  }

  lemma IdentityKeepsInv(h: Hash, w: World, sha256: string, committed: bool, ok: bool)
    requires Inv(h, w) && InPhase(w, Streaming) && w.run.value.t.announced.Some? && (ok ==> committed)
    ensures Inv(h, RecordIdentity(w, sha256, committed, ok))
  {
    var n := RecordIdentity(w, sha256, committed, ok);
    var r, r' := w.run.value, n.run.value;
    assert Recorded(w.disk, r);
    assert r'.state.Coherent();
    if r'.phase.Streaming? {
      assert Recorded(n.disk, r');
    } else {
      assert Lagging(n.disk, r'.state);
    }
  }

  lemma DoneKeepsInv(h: Hash, w: World, e: LoopEvent)
    requires Inv(h, w) && LoopEnabled(w, e) && e.Done?
    ensures Inv(h, ApplyLoop(h, w, e))
  {
    assert Recorded(w.disk, w.run.value);
  }

  lemma StopKeepsInv(h: Hash, w: World, e: LoopEvent)
    requires Inv(h, w) && LoopEnabled(w, e) && (e.Refused? || e.Abort?)
    ensures Inv(h, ApplyLoop(h, w, e))
  {
    assert StreamOk(w.disk, w.run.value);
  }

  lemma SyncWindowKeepsInv(h: Hash, w: World, e: LoopEvent)
    requires Inv(h, w) && LoopEnabled(w, e) && e.SyncWindow?
    ensures Inv(h, ApplyLoop(h, w, e))
  {
    assert StreamOk(w.disk, w.run.value);
  }

  /** A journal write of an offset that is already synced, and what can come of it. */
  lemma RecordDurableOutcome(w: World, offset: nat, committed: bool, ok: bool, next: Phase)
    requires w.run.Some? && w.run.value.state.Coherent() && w.disk.journal == Some(w.run.value.state)
    requires (ok ==> committed) && !next.Failing?
    ensures var n := RecordDurable(w, offset, committed, ok, next);
      && n.run.Some? && n.disk == w.disk.(journal := n.disk.journal)
      && n.run.value.t == w.run.value.t && n.run.value.resume == w.run.value.resume
      && n.run.value.state.Coherent() && Lagging(n.disk, n.run.value.state) && n.disk.journal.value.Coherent()
      && w.run.value.state.durable <= n.disk.journal.value.durable
      && n.run.value.state.durable <= Max(w.run.value.state.durable, offset)
      && n.run.value.state.sha256 == w.run.value.state.sha256
      && (n.run.value.phase == Failing ||
          (&& n.run.value.phase == next && n.run.value.state.durable == offset
           && n.disk.journal == Some(n.run.value.state)))
  {
    var r := w.run.value;
    if r.state.size.Some? && r.state.durable < offset <= r.state.size.value {
      var state := r.state.(durable := offset);
      assert RecordDurable(w, offset, committed, ok, next).run.value.state == state;
    }
  }

  lemma RecordWindowKeepsInv(h: Hash, w: World, committed: bool, ok: bool)
    requires Inv(h, w) && LoopEnabled(w, RecordWindow(committed, ok))
    ensures Inv(h, ApplyLoop(h, w, RecordWindow(committed, ok)))
  {
    var r := w.run.value;
    assert StreamOk(w.disk, r) && AllSynced(w.disk);
    assert w.disk.partial.value.synced == r.t.hashed;
    RecordDurableOutcome(w, r.t.durable, committed, ok, AckDue);
    var n := RecordDurable(w, r.t.durable, committed, ok, AckDue);
    assert DiskOk(n.disk) && AcksRecorded(n.run.value.t.acks, n.disk);
    assert PhaseOk(h, n.disk, n.run.value);
  }

  lemma AckKeepsInv(h: Hash, w: World, e: LoopEvent)
    requires Inv(h, w) && LoopEnabled(w, e) && e.SendAck?
    ensures Inv(h, ApplyLoop(h, w, e))
  {
    assert Recorded(w.disk, w.run.value);
  }

  lemma SyncFinalKeepsInv(h: Hash, w: World, e: CommitEvent)
    requires Inv(h, w) && CommitEnabled(w, e) && e.SyncFinal?
    ensures Inv(h, ApplyCommit(w, e))
  {
    assert StreamOk(w.disk, w.run.value);
  }

  lemma RecordFinalKeepsInv(h: Hash, w: World, committed: bool, ok: bool)
    requires Inv(h, w) && CommitEnabled(w, RecordFinal(committed, ok))
    ensures Inv(h, ApplyCommit(w, RecordFinal(committed, ok)))
  {
    var r := w.run.value;
    assert StreamOk(w.disk, r) && AllSynced(w.disk);
    assert w.disk.partial.value == PartialFile(r.t.hashed, []);
    RecordDurableOutcome(w, r.t.received, committed, ok, Verified);
    var n := RecordDurable(w, r.t.received, committed, ok, Verified);
    assert DiskOk(n.disk) && AcksRecorded(n.run.value.t.acks, n.disk);
    assert PhaseOk(h, n.disk, n.run.value);
  }

  lemma SyncCommitKeepsInv(h: Hash, w: World, e: CommitEvent)
    requires Inv(h, w) && CommitEnabled(w, e) && e.SyncCommit?
    ensures Inv(h, ApplyCommit(w, e))
  {
    assert Complete(h, w.disk, w.run.value);
  }

  lemma InstalledKeepsInv(h: Hash, w: World, e: CommitEvent)
    requires Inv(h, w) && CommitEnabled(w, e) && (e.Unlink? || e.Confirm? || e.RemoveJournal?)
    ensures Inv(h, ApplyCommit(w, e))
  {
    assert Installed(h, w.disk, w.run.value) && w.disk.journal == Some(w.run.value.state);
    assert Installed(h, ApplyCommit(w, e).disk, ApplyCommit(w, e).run.value);
  }

  lemma LinkKeepsInv(h: Hash, w: World, e: CommitEvent)
    requires Inv(h, w) && CommitEnabled(w, e) && e.Link?
    ensures Inv(h, ApplyCommit(w, e))
  {
    assert w.disk.partial.value.Content() == w.run.value.t.hashed;
  }

  lemma FailKeepsInv(h: Hash, w: World, e: EndingEvent)
    requires Inv(h, w) && EndingEnabled(w, e) && (e.FailTruncate? || e.FailedSync?)
    ensures Inv(h, ApplyEnding(w, e))
  {
    assert Lagging(w.disk, w.run.value.state) && Recoverable(w.disk, w.run.value.state);
  }

  lemma OutsideKeepsInv(h: Hash, w: World, e: EndingEvent)
    requires Inv(h, w) && EndingEnabled(w, e) && (e.Exit? || e.Crash? || e.Between? || e.Rival? || e.LateUnlink?)
    ensures Inv(h, ApplyEnding(w, e))
  {
  }
}
