/**
The download client as code.  Every method is proved to move through the worlds of module
DownloadProtocol by its events; clients after one another, each stopped anywhere, make up one run
of that protocol (`SessionsAreARun`), so the guarantees over all runs hold of this code.  A failed
event is only ever recorded for a file operation that failed, the frames behind the recorded
events are the frames received, and without failures the outcome is that of module DownloadFrames.
*/
module DownloadClient {
  import opened Common
  import opened DownloadProtocol
  import opened DownloadGuarantees
  import opened DownloadFrames

  /** The frame an event answers to, if any. */
  function FrameOf(e: Event): seq<Frame> {
    if !e.Loop? then [] else
      match e.l
      case Chunk(data, _, _) => [FileChunk(data)]
      case Progress(total, valid) => [ProgressFrame(total, valid)]
      case Digest(transferId, sha256, _, _) => [DigestFrame(transferId, sha256)]
      case Done(bytes) => [DoneFrame(bytes)]
      case Refused(hungUp) => [if hungUp then Eof else OtherFrame]
      case _ => []
  }

  /**
  Whether an event records a failed operation, a cancellation or a deadline; that a link is refused
  because the destination exists is not a failure.
  */
  predicate Failed(w: World, e: Event) {
    match e
    case Opening(o) => !o.LoadJournal? && !o.ok
    case Loop(l) =>
      (match l
       case Done(_) => false
       case Progress(_, _) => false
       case Refused(_) => false
       case Abort => true
       case _ => !l.ok)
    case Commit(c) =>
      if c.Unlink? || c.RemoveJournal? then !c.removed
      else !c.ok && !(c.Link? && !c.linked && w.disk.local.Some?)
    case Ending(x) => (x.FailTruncate? || x.FailedSync?) && !x.ok
  }

  /** What a client has been through: the world it started in, then one event after another. */
  datatype Log = Start(world: World) | Then(before: Log, event: Event, world: World)
  {
    function First(): World {
      match this
      case Start(w) => w
      case Then(before, _, _) => before.First()
    }

    ghost predicate Valid(h: Hash) {
      match this
      case Start(_) => true
      case Then(before, e, w) => before.Valid(h) && Enabled(before.world, e) && w == Apply(h, before.world, e)
    }

    function Failures(): nat {
      match this
      case Start(_) => 0
      case Then(before, e, _) => before.Failures() + if Failed(before.world, e) then 1 else 0
    }

    function Frames(): seq<Frame> {
      match this
      case Start(_) => []
      case Then(before, e, _) => before.Frames() + FrameOf(e)
    }
  }

  /** A valid log is a path of the protocol. */
  lemma {:induction false} LogFollows(h: Hash, log: Log) returns (worlds: seq<World>, events: seq<Event>)
    requires log.Valid(h)
    ensures Follows(h, worlds, events)
    ensures worlds[0] == log.First() && worlds[|worlds| - 1] == log.world
  {
    match log
    case Start(w) =>
      worlds, events := [w], [];
    case Then(before, e, w) =>
      var ws, es := LogFollows(h, before);
      worlds, events := ws + [w], es + [e];
      forall i | 0 <= i < |events|
        ensures StepAt(h, worlds, events, i)
      {
        if i < |es| {
          assert StepAt(h, ws, es, i);
          assert worlds[i] == ws[i] && worlds[i + 1] == ws[i + 1] && events[i] == es[i];
        }
      }
  }

  lemma {:induction false} LogKeepsInv(h: Hash, log: Log)
    requires log.Valid(h) && Inv(h, log.First())
    ensures Inv(h, log.world)
  {
    match log
    case Start(_) =>
    case Then(before, e, _) =>
      LogKeepsInv(h, before);
      StepKeepsInv(h, before.world, e);
  }

  /** Where a stored chunk leaves the loop. */
  function AfterChunk(t: Transfer, received: nat): Phase {
    if received > MAX_TRANSFER_BYTES then Failing else if WindowFull(t, received) then WindowSync else AckDue
  }

  lemma ChunkApplied(h: Hash, w: World, data: Bytes)
    requires InPhase(w, Streaming) && HasPartial(w) && 0 < |data| <= MAX_CHUNK_BYTES
    ensures var r, t := w.run.value, Received(w.run.value.t, data);
      Enabled(w, Loop(Chunk(data, 0, true))) &&
      Apply(h, w, Loop(Chunk(data, 0, true))) ==
        World(w.disk.(partial := Some(w.disk.partial.value.Append(data))),
              Some(r.(t := t, phase := AfterChunk(r.t, t.received))))
  {
  }

  lemma OneFrameOn(before: seq<Frame>, input: seq<Frame>, k: nat)
    requires k < |input|
    ensures (before + input[..k]) + [input[k]] == before + input[..k + 1] && input[k..][1..] == input[k + 1..]
  {
  }

  /** `prefix`, if there is one, is still at the start of the file. */
  predicate Holds(f: Option<PartialFile>, prefix: Option<Bytes>) {
    prefix.Some? ==> f.Some? && prefix.value <= f.value.Content()
  }

  /** The content as it was, or its first `n` bytes. */
  predicate IsCut(was: Bytes, now: Bytes, n: nat) {
    now == was || (n <= |was| && now == was[..n])
  }

  class DownloadClient {
    const h: Hash
    // on disk
    var journal: Option<Journal>
    var partial: Option<PartialFile>
    var local: Option<Bytes>
    // in memory
    var state: Journal
    var resume: nat
    /** File operations that failed, cancellations and deadlines, and how many there are to be. */
    var faults: nat
    const budget: nat
    /** Whether this run has installed its file. */
    ghost var linked: bool
    ghost var log: Log

    constructor (h: Hash, disk: Disk, idle: Journal, budget: nat)
      ensures this.h == h && Now() == disk && Idle() && log == Start(World(disk, None))
      ensures this.budget == budget && faults == 0
    {
      this.h, this.budget := h, budget;
      journal, partial, local := disk.journal, disk.partial, disk.local;
      state, resume, faults, linked := idle, 0, 0, false;
      log := Start(World(disk, None));
    }

    function Now(): Disk
      reads this`journal, this`partial, this`local
    {
      Disk(journal, partial, local)
    }

    ghost predicate Idle()
      reads this
    {
      log.Valid(h) && faults == log.Failures() <= budget && log.world == World(Now(), None)
    }

    ghost predicate At(phase: Phase, t: Transfer)
      reads this
    {
      && log.Valid(h) && faults == log.Failures() <= budget
      && log.world == World(Now(), Some(Run(phase, state, resume, t, linked)))
    }

    /** Record one event that leads to the present fields. */
    ghost method Go(e: Event, phase: Phase, t: Transfer)
      requires log.Valid(h) && Enabled(log.world, e)
      requires Apply(h, log.world, e) == World(Now(), Some(Run(phase, state, resume, t, linked)))
      requires faults == log.Failures() + (if Failed(log.world, e) then 1 else 0) <= budget
      modifies this`log
      ensures At(phase, t) && log.First() == old(log).First() && log.Frames() == old(log).Frames() + FrameOf(e)
    {
      log := Then(log, e, World(Now(), Some(Run(phase, state, resume, t, linked))));
    }

    ghost method GoIdle(e: Event)
      requires log.Valid(h) && Enabled(log.world, e)
      requires Apply(h, log.world, e) == World(Now(), None)
      requires faults == log.Failures() + (if Failed(log.world, e) then 1 else 0) <= budget
      modifies this`log
      ensures Idle() && log.First() == old(log).First() && log.Frames() == old(log).Frames() + FrameOf(e)
    {
      log := Then(log, e, World(Now(), None));
    }

    /** The outcome of one fallible operation. */
    method Try() returns (ok: bool)
      requires faults <= budget
      modifies this`faults
      ensures faults == old(faults) + (if ok then 0 else 1) <= budget
    {
      ok := *;
      ok := ok || faults == budget;
      if !ok { faults := faults + 1; }
    }

    /** `write_protected_atomic`: commits or not, and may report an error after committing. */
    method PersistJournal() returns (ok: bool, committed: bool)
      requires faults <= budget
      modifies this`journal, this`faults
      ensures journal == if committed then Some(state) else old(journal)
      ensures ok ==> committed
      ensures faults == old(faults) + (if ok then 0 else 1) <= budget
    {
      ok := Try();
      committed := *;
      committed := committed || ok;
      if committed { journal := Some(state); }
    }

    /** Read the durable prefix back in bounded pieces; short reads are possible. */
    method ReadPrefix(offset: nat) returns (prefix: Option<Bytes>)
      requires partial.Some? && offset <= |partial.value.Content()| && faults <= budget
      modifies this`faults
      ensures faults == old(faults) + (if prefix.Some? then 0 else 1) <= budget
      ensures prefix.Some? ==> prefix.value == partial.value.Content()[..offset]
    {
      var content := partial.value.Content();
      var done: Bytes := [];
      while |done| < offset
        invariant |done| <= offset <= |content| && done == content[..|done|]
        invariant faults == old(faults)
      {
        var ok := Try();
        if !ok {
          return None;
        }
        var read: int := *;
        read := Max(1, Min(read, Min(offset - |done|, MAX_CHUNK_BYTES)));
        done := done + content[|done|..|done| + read];
      }
      prefix := Some(done);
    }

    // -------------------------------------------------------------- opening

    /** Load the journal for `subject`, or create one; `false` leaves no run. */
    method PrepareJournal(subject: Subject, newTransferId: string, unreadable: bool) returns (ok: bool)
      requires Idle() && local == None
      modifies this
      ensures log.First() == old(log).First() && log.Frames() == old(log).Frames() && local == None
      ensures ok ==> At(Loaded, NO_TRANSFER) && journal == Some(state) && state.subject == subject
      ensures ok ==> resume == state.durable && state.Coherent()
      ensures ok ==> !unreadable && StartJournal(old(Now()), subject, newTransferId) == Some(state)
      ensures !ok ==> Idle()
      ensures faults >= old(faults)
      ensures !ok && faults == old(faults) ==> unreadable || StartJournal(old(Now()), subject, newTransferId) == None
      ensures old(journal).Some? || unreadable ==> Now() == old(Now())
      ensures state.durable != 0 && ok ==> partial == old(partial)
    {
      if unreadable {
        return false;
      }
      if journal.Some? {
        var found := journal.value;
        if found.subject != subject || !found.Coherent() {
          return false;
        }
        state, resume, linked := found, found.durable, false;
        Go(Opening(LoadJournal(subject)), Loaded, NO_TRANSFER);
        return true;
      }
      state, resume, linked := Journal(subject, newTransferId, None, None, 0), 0, false;
      var committed: bool;
      ok, committed := PersistJournal();
      if committed {
        // The name of the partial file is derived from the transfer id; anything may already bear it.
        partial := *;
      }
      ghost var e := Opening(CreateJournal(state, partial, committed, ok));
      if ok {
        Go(e, Loaded, NO_TRANSFER);
      } else {
        GoIdle(e);
      }
    }

    /** Open or create the partial file and cut it to the durable offset. */
    method OpenPartialFile() returns (ok: bool)
      requires At(Loaded, NO_TRANSFER)
      modifies this
      ensures log.First() == old(log).First() && log.Frames() == old(log).Frames()
      ensures journal == old(journal) && local == old(local) && state == old(state) && resume == old(resume)
      ensures ok ==> At(Ready, NO_TRANSFER) && partial.Some? && |partial.value.Content()| == state.durable
      ensures ok ==> StartPrefix(old(Now()), state.durable) == Some(partial.value.Content())
      ensures !ok ==> At(Finished(Err), NO_TRANSFER)
      ensures faults >= old(faults)
      ensures !ok && faults == old(faults) ==> StartPrefix(old(Now()), state.durable) == None
      ensures old(partial).Some? ==> Holds(partial, StartPrefix(old(Now()), state.durable))
    {
      ok := Try();
      if !ok {
        Go(Opening(OpenPartial(false)), Finished(Err), NO_TRANSFER);
        return;
      }
      if partial == None {
        ok := CreatePartialFile();
        assert ok ==> partial.value.Content() == [];
      } else {
        ok := AdoptPartialFile();
        assert ok ==> partial.value.Content() == old(partial).value.Content()[..state.durable];
      }
    }

    /** No partial file: fine at offset 0 only. */
    method CreatePartialFile() returns (ok: bool)
      requires At(Loaded, NO_TRANSFER) && partial == None
      modifies this
      ensures log.First() == old(log).First() && log.Frames() == old(log).Frames() && faults == old(faults)
      ensures journal == old(journal) && local == old(local) && state == old(state) && resume == old(resume)
      ensures ok <==> state.durable == 0
      ensures ok ==> At(Ready, NO_TRANSFER) && partial == Some(PartialFile([], []))
      ensures !ok ==> At(Finished(Err), NO_TRANSFER)
    {
      ok := state.durable == 0;
      if ok {
        partial := Some(PartialFile([], []));
        Go(Opening(OpenPartial(true)), Ready, NO_TRANSFER);
      } else {
        Go(Opening(OpenPartial(true)), Finished(Err), NO_TRANSFER);
      }
    }

    /** A partial file is there: it must hold the durable prefix, and is cut to it. */
    method AdoptPartialFile() returns (ok: bool)
      requires At(Loaded, NO_TRANSFER) && partial.Some?
      modifies this
      ensures log.First() == old(log).First() && log.Frames() == old(log).Frames() && faults >= old(faults)
      ensures journal == old(journal) && local == old(local) && state == old(state) && resume == old(resume)
      ensures ok ==> At(Ready, NO_TRANSFER) && partial.Some?
      ensures ok ==> |partial.value.Content()| == state.durable
      ensures ok ==> partial.value.Content() <= old(partial).value.Content()
      ensures !ok ==> At(Finished(Err), NO_TRANSFER)
      ensures !ok && faults == old(faults) ==> |old(partial).value.Content()| < state.durable
      ensures partial.Some? && IsCut(old(partial).value.Content(), partial.value.Content(), state.durable)
    {
      var length := |partial.value.Content()|;
      ok := length >= state.durable;
      if length < state.durable {
        Go(Opening(OpenPartial(true)), Finished(Err), NO_TRANSFER);
      } else if length == state.durable {
        Go(Opening(OpenPartial(true)), Ready, NO_TRANSFER);
      } else {
        Go(Opening(OpenPartial(true)), Truncating, NO_TRANSFER);
        ok := TruncatePartialFile();
      }
    }

    method TruncatePartialFile() returns (ok: bool)
      requires At(Truncating, NO_TRANSFER) && partial.Some? && state.durable < |partial.value.Content()|
      modifies this
      ensures log.First() == old(log).First() && log.Frames() == old(log).Frames()
      ensures journal == old(journal) && local == old(local) && state == old(state) && resume == old(resume)
      ensures ok ==> At(Ready, NO_TRANSFER) && partial.Some? && |partial.value.Content()| == state.durable
      ensures ok ==> partial.value.Content() <= old(partial).value.Content()
      ensures faults >= old(faults)
      ensures !ok ==> At(Finished(Err), NO_TRANSFER) && faults > old(faults)
      ensures partial.Some? && IsCut(old(partial).value.Content(), partial.value.Content(), state.durable)
    {
      ok := Try();
      if !ok {
        Go(Opening(TruncatePartial(false)), Finished(Err), NO_TRANSFER);
        return;
      }
      partial := Some(partial.value.SetLen(state.durable));
      Go(Opening(TruncatePartial(true)), TruncateSync, NO_TRANSFER);
      ok := Try();
      if ok {
        partial := Some(partial.value.Synced());
        Go(Opening(SyncTruncated(true)), Ready, NO_TRANSFER);
      } else {
        Go(Opening(SyncTruncated(false)), Finished(Err), NO_TRANSFER);
      }
    }

    // -------------------------------------------------------------- the journal

    /**
    `record_durable`: refuse an offset beyond the recorded size or behind the recorded one,
    otherwise advance the journal.  `result` is what the caller continues with; `committed` and
    `written` tell what the atomic write did, if there was one.
    */
    method RecordDurableOffset(offset: nat) returns (result: bool, committed: bool, written: bool)
      requires faults <= budget
      modifies this`journal, this`state, this`faults
      ensures faults == old(faults) + (if written then 0 else 1) <= budget
      ensures old(state).durable <= state.durable
      ensures written && old(journal) == Some(old(state)) ==> journal == Some(state)
      ensures written ==> committed
      ensures state.durable == offset || state == old(state)
      ensures !result <==> OffsetRefused(old(state), offset) || !written
      ensures result ==> state == old(state).(durable := offset)
      ensures forall phase, next, t ::
        var w := World(old(Now()), Some(Run(phase, old(state), resume, t, linked)));
        RecordDurable(w, offset, committed, written, next) ==
        World(Now(), Some(Run(if result then next else Failing, state, resume, t, linked)))
    {
      committed, written := true, true;
      if state.size == None || offset > state.size.value || offset < state.durable {
        return false, true, true;
      }
      if offset == state.durable {
        return true, true, true;
      }
      state := state.(durable := offset);
      written, committed := PersistJournal();
      result := written;
    }

    // -------------------------------------------------------------- the transfer loop

    /** The partial file and the durable offset only grow; without a fault the journal keeps up. */
    twostate predicate Grows()
      reads this
    {
      && old(partial).Some? && partial.Some? && old(partial).value.Content() <= partial.value.Content()
      && old(state).durable <= state.durable
      && (faults == old(faults) && old(journal) == Some(old(state)) ==> journal == Some(state))
    }

    /** Append one chunk, make a full window durable, acknowledge. */
    method HandleChunk(data: Bytes, t: Transfer) returns (t': Transfer, ok: bool)
      requires At(Streaming, t) && partial.Some?
      modifies this
      ensures log.First() == old(log).First() && log.Frames() == old(log).Frames() + [FileChunk(data)]
      ensures local == old(local) && resume == old(resume) && Grows()
      ensures At(if ok then Streaming else Failing, t')
      ensures ok ==> partial.value.Content() == old(partial).value.Content() + data
      ensures faults >= old(faults)
      ensures faults == old(faults) ==> (!ok <==> Unwelcome(h, FileChunk(data), Cursor(old(state), t)))
      ensures ok ==> Cursor(state, t') == Feed(Cursor(old(state), t), FileChunk(data))
    {
      t' := t;
      if |data| == 0 || |data| > MAX_CHUNK_BYTES {
        Go(Loop(Chunk(data, 0, true)), Failing, t);
        return t, false;
      }
      ok := Try();
      if !ok {
        var written: int := *;
        written := if 0 <= written <= |data| then written else 0;
        partial := Some(partial.value.Append(data[..written]));
        Go(Loop(Chunk(data, written, false)), Failing, t);
        return;
      }
      t', ok := AcceptChunk(data, t);
    }

    /** The chunk is written: count it, close the window if it is full, acknowledge. */
    method AcceptChunk(data: Bytes, t: Transfer) returns (t': Transfer, ok: bool)
      requires At(Streaming, t) && partial.Some? && 0 < |data| <= MAX_CHUNK_BYTES
      modifies this
      ensures log.First() == old(log).First() && log.Frames() == old(log).Frames() + [FileChunk(data)]
      ensures local == old(local) && resume == old(resume) && Grows()
      ensures At(if ok then Streaming else Failing, t')
      ensures ok ==> partial.value.Content() == old(partial).value.Content() + data
      ensures ok ==> Cursor(state, t') == Feed(Cursor(old(state), t), FileChunk(data))
      ensures faults >= old(faults)
      ensures faults == old(faults) ==> (!ok <==> Unwelcome(h, FileChunk(data), Cursor(old(state), t)))
    {
      var phase;
      t', phase := StoreChunk(data, t);
      if phase == Failing {
        return t', false;
      }
      if phase == WindowSync {
        t', ok := CloseWindow(t');
        if !ok { return; }
      }
      t', ok := Acknowledge(t');
    }

    method StoreChunk(data: Bytes, t: Transfer) returns (t': Transfer, phase: Phase)
      requires At(Streaming, t) && partial.Some? && 0 < |data| <= MAX_CHUNK_BYTES
      modifies this`partial, this`log
      ensures log.First() == old(log).First() && log.Frames() == old(log).Frames() + [FileChunk(data)]
      ensures t' == Received(t, data) && phase == AfterChunk(t, t'.received) && At(phase, t')
      ensures partial.Some? && partial.value.Content() == old(partial).value.Content() + data
    {
      ChunkApplied(h, log.world, data);
      partial := Some(partial.value.Append(data));
      t' := Received(t, data);
      phase := AfterChunk(t, t'.received);
      Go(Loop(Chunk(data, 0, true)), phase, t');
    }

    method Acknowledge(t: Transfer) returns (t': Transfer, ok: bool)
      requires At(AckDue, t)
      modifies this
      ensures log.First() == old(log).First() && log.Frames() == old(log).Frames()
      ensures Now() == old(Now()) && resume == old(resume)
      ensures At(if ok then Streaming else Failing, t')
      ensures t' == if ok then Acknowledged(t) else t
      ensures state == old(state)
      ensures faults == old(faults) + if ok then 0 else 1
    {
      ok := Try();
      if ok {
        t' := Acknowledged(t);
        Go(Loop(SendAck(true)), Streaming, t');
      } else {
        t' := t;
        Go(Loop(SendAck(false)), Failing, t);
      }
    }

    /** Sync what has been received, then record it as durable. */
    method CloseWindow(t: Transfer) returns (t': Transfer, ok: bool)
      requires At(WindowSync, t) && partial.Some?
      modifies this
      ensures log.First() == old(log).First() && log.Frames() == old(log).Frames()
      ensures local == old(local) && resume == old(resume) && Grows()
      ensures partial.value.Content() == old(partial).value.Content()
      ensures At(if ok then AckDue else Failing, t')
      ensures ok ==> t' == t.(durable := t.received) && state == old(state).(durable := t.received)
      ensures faults >= old(faults) && (faults == old(faults) ==> (!ok <==> OffsetRefused(old(state), t.received)))
    {
      ok := Try();
      if !ok {
        Go(Loop(SyncWindow(false)), Failing, t);
        return t, false;
      }
      partial := Some(partial.value.Synced());
      t' := t.(durable := t.received);
      Go(Loop(SyncWindow(true)), WindowRecord, t');
      var committed, written;
      ok, committed, written := RecordDurableOffset(t'.durable);
      Go(Loop(RecordWindow(committed, written)), if ok then AckDue else Failing, t');
    }

    /** `record_remote_identity`: the first digest fixes size and digest, later ones must repeat them. */
    method HandleDigest(transferId: string, sha256: string, t: Transfer) returns (t': Transfer, ok: bool)
      requires At(Streaming, t)
      modifies this
      ensures log.First() == old(log).First() && log.Frames() == old(log).Frames() + [DigestFrame(transferId, sha256)]
      ensures partial == old(partial) && local == old(local) && resume == old(resume)
      ensures faults == old(faults) && old(journal) == Some(old(state)) ==> journal == Some(state)
      ensures state.durable == old(state).durable
      ensures At(if ok then Streaming else Failing, t')
      ensures t' == if ok then t.(digest := Some(sha256)) else t
      ensures ok ==> t.announced.Some? && state.size == t.announced && state.sha256 == Some(sha256)
      ensures ok ==> state == old(state).(size := state.size, sha256 := state.sha256)
      ensures old(state).size.Some? ==> state == old(state)
      ensures faults >= old(faults)
      ensures faults == old(faults) ==> (!ok <==> Unwelcome(h, DigestFrame(transferId, sha256), Cursor(old(state), t)))
      ensures faults == old(faults) && ok ==>
        Cursor(state, t') == Feed(Cursor(old(state), t), DigestFrame(transferId, sha256))
    {
      t', ok := t, false;
      if transferId != state.transferId || !IsSha256Text(sha256) || t.announced == None {
        Go(Loop(Digest(transferId, sha256, true, true)), Failing, t);
        return;
      }
      if state.size == None && state.sha256 == None {
        state := state.(size := t.announced, sha256 := Some(sha256));
        var committed;
        ok, committed := PersistJournal();
        t' := if ok then t.(digest := Some(sha256)) else t;
        Go(Loop(Digest(transferId, sha256, committed, ok)), if ok then Streaming else Failing, t');
        return;
      }
      ok := state.size == t.announced && state.sha256 == Some(sha256);
      t' := if ok then t.(digest := Some(sha256)) else t;
      Go(Loop(Digest(transferId, sha256, true, true)), if ok then Streaming else Failing, t');
    }

    /** The daemon says it is done: check, sync, and record the last byte as durable. */
    method HandleDone(bytes: nat, t: Transfer) returns (ok: bool)
      requires At(Streaming, t) && partial.Some?
      modifies this
      ensures log.First() == old(log).First() && log.Frames() == old(log).Frames() + [DoneFrame(bytes)]
      ensures local == old(local) && resume == old(resume) && Grows()
      ensures At(if ok then Verified else Failing, t)
      ensures ok ==> bytes == t.received && t.digest == Some(h(t.hashed)) && state.durable == bytes
      ensures ok ==> partial == Some(old(partial).value.Synced())
      ensures faults >= old(faults)
      ensures faults == old(faults) ==> (!ok <==> Unwelcome(h, DoneFrame(bytes), Cursor(old(state), t)))
      ensures ok ==> state == old(state).(durable := t.received)
    {
      if bytes != t.received || t.digest != Some(h(t.hashed)) {
        Go(Loop(Done(bytes)), Failing, t);
        return false;
      }
      Go(Loop(Done(bytes)), FinalSync, t);
      ok := RecordLastByte(t);
    }

    method RecordLastByte(t: Transfer) returns (ok: bool)
      requires At(FinalSync, t) && partial.Some?
      modifies this
      ensures log.First() == old(log).First() && log.Frames() == old(log).Frames()
      ensures local == old(local) && resume == old(resume) && Grows()
      ensures At(if ok then Verified else Failing, t)
      ensures ok ==> state == old(state).(durable := t.received) && partial == Some(old(partial).value.Synced())
      ensures faults >= old(faults) && (faults == old(faults) ==> (!ok <==> OffsetRefused(old(state), t.received)))
    {
      ok := Try();
      if !ok {
        Go(Commit(SyncFinal(false)), Failing, t);
        return;
      }
      partial := Some(partial.value.Synced());
      Go(Commit(SyncFinal(true)), FinalRecord, t);
      var committed, written;
      ok, committed, written := RecordDurableOffset(t.received);
      Go(Commit(RecordFinal(committed, written)), if ok then Verified else Failing, t);
    }

    /** Hash the durable prefix again and start after it. */
    method BeginStream() returns (t: Transfer, ok: bool)
      requires At(Ready, NO_TRANSFER) && partial.Some? && |partial.value.Content()| == state.durable
      modifies this
      ensures log.First() == old(log).First() && log.Frames() == old(log).Frames()
      ensures Now() == old(Now()) && resume == old(resume) && state == old(state)
      ensures At(if ok then Streaming else Failing, t)
      ensures ok ==> t == Resumed(state, partial.value.Content()).t
      ensures faults == old(faults) + if ok then 0 else 1
    {
      t := NO_TRANSFER;
      var prefix := ReadPrefix(state.durable);
      ok := prefix.Some?;
      if ok {
        var content := partial.value.Content();
        assert content[..|content|] == content;
        t := t.(hashed := prefix.value, received := state.durable, durable := state.durable);
        Go(Opening(Rehash(true)), Streaming, t);
      } else {
        Go(Opening(Rehash(false)), Failing, t);
      }
    }

    /** Without faults: an unwelcome frame ends the transfer, `DoneFrame` completes it, any other feeds it. */
    ghost predicate Answered(c: Cursor, f: Frame, phase: Phase, c': Cursor) {
      && (phase.Failing? <==> Unwelcome(h, f, c))
      && (phase.Verified? ==> f.DoneFrame? && c' == c.(j := c.j.(durable := c.t.received)))
      && (phase.Streaming? ==> !f.DoneFrame? && c' == Feed(c, f))
    }

    /** One frame of the daemon; the resulting phase tells whether the loop goes on. */
    method HandleFrame(f: Frame, t: Transfer) returns (t': Transfer, phase: Phase)
      requires At(Streaming, t) && partial.Some?
      modifies this
      ensures log.First() == old(log).First() && log.Frames() == old(log).Frames() + [f]
      ensures local == old(local) && resume == old(resume) && Grows()
      ensures At(phase, t') && (phase.Streaming? || phase.Failing? || phase.Verified?)
      ensures phase.Verified? ==> f == DoneFrame(t'.received)
      ensures f.Eof? ==> phase.Failing?
      ensures faults >= old(faults)
      ensures faults == old(faults) ==> Answered(Cursor(old(state), t), f, phase, Cursor(state, t'))
    {
      t', phase := t, Failing;
      var ok;
      match f {
        case FileChunk(data) =>
          t', ok := HandleChunk(data, t);
          phase := if ok then Streaming else Failing;
        case ProgressFrame(total, valid) =>
          t' := t.(announced := Some(total));
          phase := if valid then Streaming else Failing;
          Go(Loop(Progress(total, valid)), phase, t');
        case DigestFrame(transferId, sha256) =>
          t', ok := HandleDigest(transferId, sha256, t);
          phase := if ok then Streaming else Failing;
        case DoneFrame(bytes) =>
          ok := HandleDone(bytes, t);
          phase := if ok then Verified else Failing;
        case OtherFrame => Go(Loop(Refused(false)), Failing, t);
        case Eof => Go(Loop(Refused(true)), Failing, t);
      }
    }

    /** The wait for a frame ends with the frame, or with a cancellation, deadline or read error. */
    method AwaitFrame(f: Frame, t: Transfer) returns (t': Transfer, phase: Phase, awake: bool)
      requires At(Streaming, t) && partial.Some?
      modifies this
      ensures log.First() == old(log).First()
      ensures log.Frames() == old(log).Frames() + if awake then [f] else []
      ensures local == old(local) && resume == old(resume) && Grows()
      ensures At(phase, t') && (phase.Streaming? || phase.Failing? || phase.Verified?)
      ensures !awake || f.Eof? ==> phase.Failing?
      ensures faults >= old(faults)
      ensures faults == old(faults) ==> awake && Answered(Cursor(old(state), t), f, phase, Cursor(state, t'))
    {
      awake := Try();
      if awake {
        t', phase := HandleFrame(f, t);
      } else {
        t', phase := t, Failing;
        Go(Loop(Abort), Failing, t);
      }
    }

    /** What the rest of the frames leads to from here. */
    ghost function Ahead(phase: Phase, t: Transfer, rest: seq<Frame>): Option<Cursor>
      reads this
    {
      match phase
      case Streaming => Verdict(h, Cursor(state, t), rest)
      case Verified => Some(Cursor(state, t))
      case _ => None
    }

    /** One turn of the loop, with what the remaining frames lead to before and after it. */
    method TakeFrame(f: Frame, t: Transfer, ghost rest: seq<Frame>) returns (t': Transfer, phase: Phase, awake: bool)
      requires At(Streaming, t) && partial.Some? && rest != [] && rest[0] == f
      modifies this
      ensures log.First() == old(log).First()
      ensures log.Frames() == old(log).Frames() + if awake then [f] else []
      ensures local == old(local) && resume == old(resume) && Grows()
      ensures At(phase, t') && (phase.Streaming? || phase.Failing? || phase.Verified?)
      ensures !awake || f.Eof? ==> phase.Failing?
      ensures faults >= old(faults)
      ensures faults == old(faults) ==>
        awake && Ahead(phase, t', rest[1..]) == Verdict(h, Cursor(old(state), t), rest)
    {
      t', phase, awake := AwaitFrame(f, t);
    }

    /** The loop over the daemon's frames, the last of which is `Eof`. */
    method StreamFrames(input: seq<Frame>, t0: Transfer) returns (t: Transfer, ok: bool, k: nat)
      requires At(Streaming, t0) && partial.Some?
      requires input != [] && input[|input| - 1] == Eof
      modifies this
      ensures log.First() == old(log).First()
      ensures k <= |input| && log.Frames() == old(log).Frames() + input[..k]
      ensures local == old(local) && resume == old(resume) && Grows()
      ensures At(if ok then Verified else Failing, t)
      ensures faults >= old(faults)
      ensures faults == old(faults) ==>
        Verdict(h, Cursor(old(state), t0), input) == if ok then Some(Cursor(state, t)) else None
    {
      var phase := Streaming;
      ghost var end := Verdict(h, Cursor(state, t0), input);
      t, k := t0, 0;
      assert input[k..] == input && log.Frames() + input[..k] == log.Frames();
      while phase == Streaming
        invariant k <= |input| && At(phase, t) && partial.Some?
        invariant phase.Streaming? || phase.Failing? || phase.Verified?
        invariant phase.Streaming? ==> k < |input|
        invariant log.First() == old(log).First() && log.Frames() == old(log).Frames() + input[..k]
        invariant local == old(local) && resume == old(resume) && Grows()
        invariant faults >= old(faults)
        invariant faults == old(faults) ==> Ahead(phase, t, input[k..]) == end
        decreases phase == Streaming, |input| - k
      {
        OneFrameOn(old(log).Frames(), input, k);
        var awake;
        t, phase, awake := TakeFrame(input[k], t, input[k..]);
        if awake {
          k := k + 1;
        }
      }
      ok := phase.Verified?;
    }

    /** `download_via_daemon_until`: ends verified or failing, at the latest when the daemon hangs up. */
    method DownloadViaDaemon(frames: seq<Frame>) returns (t: Transfer, ok: bool)
      requires At(Ready, NO_TRANSFER) && partial.Some? && |partial.value.Content()| == state.durable
      modifies this
      ensures log.First() == old(log).First()
      ensures old(log).Frames() <= log.Frames() <= old(log).Frames() + (frames + [Eof])
      ensures local == old(local) && resume == old(resume) && Grows()
      ensures At(if ok then Verified else Failing, t)
      ensures faults >= old(faults)
      ensures faults == old(faults) ==>
        Verdict(h, Resumed(old(state), old(partial).value.Content()), frames + [Eof]) ==
        if ok then Some(Cursor(state, t)) else None
    {
      t, ok := BeginStream();
      if ok {
        var k;
        t, ok, k := StreamFrames(frames + [Eof], t);
      }
    }

    // -------------------------------------------------------------- commit and failure

    /** Install the verified file and close the books; `Err` may come after the link. */
    method InstallFile(t: Transfer) returns (r: Result)
      requires At(Verified, t) && partial.Some?
      modifies this
      ensures log.First() == old(log).First() && log.Frames() == old(log).Frames()
      ensures At(Finished(r), t)
      ensures r.Ok? ==> r.bytes == t.received && old(local) == None
      ensures r.Ok? ==> local == Some(old(partial).value.Content())
      ensures local == old(local) || (old(local) == None && local == Some(old(partial).value.Content()))
      ensures local == None ==> partial == Some(old(partial).value.Synced()) || partial == old(partial)
      ensures faults >= old(faults) && (r == Err ==> faults > old(faults) || old(local).Some?)
      ensures faults == old(faults) && r.Ok? ==> journal == None && partial == None
    {
      var synced := Try();
      if !synced {
        Go(Commit(SyncCommit(false)), Finished(Err), t);
        return Err;
      }
      partial := Some(partial.value.Synced());
      Go(Commit(SyncCommit(true)), Committing, t);
      var made, ok := LinkPartial();
      linked := ok;
      Go(Commit(Link(made, ok)), if ok then Linked else Finished(Err), t);
      if !ok {
        return Err;
      }
      r := CloseBooks(t);
    }

    /** The link under the destination name: never over another file; it may be made and still not be sure. */
    method LinkPartial() returns (made: bool, ok: bool)
      requires partial.Some? && faults <= budget
      modifies this`local, this`faults
      ensures local == if made then Some(partial.value.Content()) else old(local)
      ensures made ==> old(local) == None
      ensures ok ==> made
      ensures faults == old(faults) + (if ok || old(local).Some? then 0 else 1) <= budget
    {
      made := false;
      if local.Some? {
        return false, false;
      }
      ok := Try();
      made := *;
      made := made || ok;
      if made { local := Some(partial.value.Content()); }
    }

    method CloseBooks(t: Transfer) returns (r: Result)
      requires At(Linked, t)
      modifies this
      ensures log.First() == old(log).First() && log.Frames() == old(log).Frames()
      ensures At(Finished(r), t) && local == old(local)
      ensures r.Ok? ==> r.bytes == t.received
      ensures faults >= old(faults) && (r == Err ==> faults > old(faults))
      ensures faults == old(faults) && r.Ok? ==> journal == None && partial == None
    {
      var removed := Try();
      if removed { partial := None; }
      Go(Commit(Unlink(removed)), Confirming, t);
      var confirmed := Try();
      if !confirmed {
        Go(Commit(Confirm(false)), Finished(Err), t);
        return Err;
      }
      Go(Commit(Confirm(true)), Closing, t);
      r := ForgetJournal(t);
    }

    /** A journal that cannot be removed does not turn success into failure. */
    method ForgetJournal(t: Transfer) returns (r: Result)
      requires At(Closing, t)
      modifies this
      ensures log.First() == old(log).First() && log.Frames() == old(log).Frames()
      ensures At(Finished(r), t) && local == old(local) && partial == old(partial)
      ensures r == Ok(t.received) && faults >= old(faults)
      ensures journal == if faults == old(faults) then None else old(journal)
    {
      var forgotten := Try();
      if forgotten { journal := None; }
      r := Ok(t.received);
      Go(Commit(RemoveJournal(forgotten)), Finished(r), t);
    }

    /** Cut the partial file of a failed run back to the durable prefix. */
    method KeepDurablePrefix(t: Transfer)
      requires At(Failing, t)
      modifies this
      ensures log.First() == old(log).First() && log.Frames() == old(log).Frames()
      ensures At(Finished(Err), t) && journal == old(journal) && local == old(local)
      ensures faults >= old(faults)
      ensures partial.Some? <==> old(partial).Some?
      ensures partial.Some? && faults == old(faults) ==> |partial.value.Content()| == old(state).durable
      ensures partial.Some? && old(state).durable <= |old(partial).value.Content()| ==>
        || partial.value.Content() == old(partial).value.Content()[..old(state).durable]
        || (faults > old(faults) && partial == old(partial))
    {
      var ok := Try();
      if partial == None {
        Go(Ending(FailTruncate(ok)), Finished(Err), t);
        return;
      }
      if !ok {
        Go(Ending(FailTruncate(false)), Finished(Err), t);
        return;
      }
      partial := Some(partial.value.SetLen(state.durable));
      Go(Ending(FailTruncate(true)), FailSync, t);
      ok := Try();
      if ok { partial := Some(partial.value.Synced()); }
      Go(Ending(FailedSync(ok)), Finished(Err), t);
    }

    ghost function ExpectedFrom(d: Disk, j: Journal, frames: seq<Frame>): Option<Cursor> {
      match StartPrefix(d, j.durable)
      case None => None
      case Some(prefix) => Verdict(h, Resumed(j, prefix), frames + [Eof])
    }

    /** If there was a prefix, it is there, and the file is as long as the journal says. */
    predicate Resumable(prefix: Option<Bytes>)
      reads this`partial, this`journal
    {
      prefix.Some? ==>
        && partial.Some? && prefix.value <= partial.value.Content()
        && journal.Some? && |partial.value.Content()| == journal.value.durable
    }

    lemma LoadedFromJournal()
      requires At(Loaded, NO_TRANSFER) && Inv(h, log.First())
      ensures journal == Some(state)
    {
      LogKeepsInv(h, log);
    }

    lemma DurableIsWritten(t: Transfer)
      requires At(Failing, t) && Inv(h, log.First()) && partial.Some?
      ensures state.durable <= |partial.value.Content()|
    {
      LogKeepsInv(h, log);
      assert Recoverable(Now(), state);
    }

    /** A run whose partial file is its durable prefix, up to its result. */
    method RunReady(frames: seq<Frame>) returns (t: Transfer, r: Result)
      requires At(Ready, NO_TRANSFER) && Inv(h, log.First())
      requires partial.Some? && |partial.value.Content()| == state.durable
      modifies this
      ensures log.First() == old(log).First()
      ensures At(Finished(r), t)
      ensures r.Ok? ==> old(local) == None && r.bytes == t.received
      ensures faults >= old(faults)
      ensures faults == old(faults) ==>
        match Verdict(h, Resumed(old(state), old(partial).value.Content()), frames + [Eof]) {
          case None => r == Err && local == old(local)
          case Some(c) => if old(local) == None then r == Ok(c.t.received) && t == c.t else r == Err
        }
      ensures local == None ==> Holds(partial, Some(old(partial).value.Content()))
      ensures faults == old(faults) && r == Err && local == None && old(journal) == Some(old(state)) ==>
        Resumable(Some(old(partial).value.Content()))
      ensures faults == old(faults) && r.Ok? ==> journal == None && partial == None
    {
      var ok;
      t, ok := DownloadViaDaemon(frames);
      if ok {
        r := InstallFile(t);
      } else {
        r := Err;
        DurableIsWritten(t);
        KeepDurablePrefix(t);
      }
    }

    /** A run with its journal in memory, up to its result. */
    method RunLoaded(frames: seq<Frame>) returns (t: Transfer, r: Result)
      requires At(Loaded, NO_TRANSFER) && Inv(h, log.First())
      modifies this
      ensures log.First() == old(log).First()
      ensures At(Finished(r), t)
      ensures r.Ok? ==> old(local) == None && r.bytes == t.received
      ensures faults >= old(faults)
      ensures faults == old(faults) ==>
        match ExpectedFrom(old(Now()), old(state), frames) {
          case None => r == Err && local == old(local)
          case Some(c) => if old(local) == None then r == Ok(c.t.received) && t == c.t else r == Err
        }
      ensures local == None && old(partial).Some? ==> Holds(partial, StartPrefix(old(Now()), old(state).durable))
      ensures faults == old(faults) && r == Err && local == None ==>
        Resumable(StartPrefix(old(Now()), old(state).durable))
      ensures faults == old(faults) && r.Ok? ==> journal == None && partial == None
    {
      LoadedFromJournal();
      t, r := NO_TRANSFER, Err;
      var ready := OpenPartialFile();
      if ready {
        t, r := RunReady(frames);
      }
    }

    /**
    One whole run of a resumable download, from journal to result; `unreadable` says that the journal
    file is oversized, unparsable or of another schema.  If nothing on this side fails, the result is
    the one the disk and the daemon's frames call for.
    */
    method DownloadFile(subject: Subject, newTransferId: string, unreadable: bool, frames: seq<Frame>)
      returns (r: Result)
      requires Idle() && Inv(h, log.First())
      modifies this
      ensures Idle() && log.First() == old(log).First() && DiskOk(Now())
      ensures r.Ok? ==> old(local) == None && local.Some? && |local.value| == r.bytes
      ensures r.Ok? && journal.Some? ==> MatchesRecord(h, local, journal.value, r.bytes)
      ensures old(local).Some? || unreadable ==> r == Err && Now() == old(Now())
      ensures faults == old(faults) && !unreadable ==>
        match Expected(h, old(Now()), subject, newTransferId, frames) {
          case None => r == Err && local == old(local)
          case Some(end) => r == Ok(end.t.received) && local == Some(end.t.hashed)
        }
      ensures local == None && old(journal).Some? && old(partial).Some? ==>
        Holds(partial, StartPrefix(old(Now()), old(journal).value.durable))
      ensures faults == old(faults) && r == Err && old(local) == None && !unreadable ==>
        match StartJournal(old(Now()), subject, newTransferId) {
          case None => Now() == old(Now())
          case Some(j) => Resumable(StartPrefix(old(Now()), j.durable))
        }
      ensures faults == old(faults) && r.Ok? ==> journal == None && partial == None
    {
      r := Err;
      if local == None {
        var prepared := PrepareJournal(subject, newTransferId, unreadable);
        if prepared {
          r := RunToEnd(frames);
        }
      }
      LogKeepsInv(h, log);
    }

    method RunToEnd(frames: seq<Frame>) returns (r: Result)
      requires At(Loaded, NO_TRANSFER) && Inv(h, log.First())
      modifies this
      ensures Idle() && log.First() == old(log).First()
      ensures r.Ok? ==> old(local) == None && local.Some? && |local.value| == r.bytes
      ensures r.Ok? && journal.Some? ==> MatchesRecord(h, local, journal.value, r.bytes)
      ensures faults >= old(faults)
      ensures faults == old(faults) ==>
        match ExpectedFrom(old(Now()), old(state), frames) {
          case None => r == Err && local == old(local)
          case Some(end) =>
            if old(local) == None then r == Ok(end.t.received) && local == Some(end.t.hashed) else r == Err
        }
      ensures local == None && old(partial).Some? ==> Holds(partial, StartPrefix(old(Now()), old(state).durable))
      ensures faults == old(faults) && r == Err && local == None ==>
        Resumable(StartPrefix(old(Now()), old(state).durable))
      ensures faults == old(faults) && r.Ok? ==> journal == None && partial == None
    {
      var t;
      t, r := RunLoaded(frames);
      if r.Ok? {
        FinishedWell(r, t);
      }
      GoIdle(Ending(Exit));
    }

    lemma FinishedWell(r: Result, t: Transfer)
      requires At(Finished(r), t) && r.Ok? && Inv(h, log.First())
      ensures local == Some(t.hashed) && |t.hashed| == r.bytes
      ensures journal.Some? ==> MatchesRecord(h, local, journal.value, r.bytes)
    {
      LogKeepsInv(h, log);
      assert RunOk(h, Now(), log.world.run.value);
    }
  }

  // ---------------------------------------------------------------- clients one after another

  /** A later client finds what an earlier one left, wherever that one stopped: see `MayRemain`. */
  predicate Restarts(w: World, first: World) {
    first.run == None && first.disk.journal == w.disk.journal && MayRemain(w.disk.partial, first.disk.partial)
  }

  ghost predicate Sessions(h: Hash, logs: seq<Log>) {
    && |logs| > 0 && (forall i :: 0 <= i < |logs| ==> logs[i].Valid(h))
    && Init(logs[0].First())
    && forall i :: 0 <= i < |logs| - 1 ==> Restarts(logs[i].world, logs[i + 1].First())
  }

  /**
  Any number of clients after one another, each of them stopped after any event of its log, by a
  crash or not, make up one run of the protocol; so what holds of every run holds of them.
  */
  lemma {:induction false} SessionsAreARun(h: Hash, logs: seq<Log>) returns (worlds: seq<World>, events: seq<Event>)
    requires Sessions(h, logs)
    ensures IsRun(h, worlds, events) && worlds[|worlds| - 1] == logs[|logs| - 1].world
    decreases |logs|
  {
    var last := logs[|logs| - 1];
    worlds, events := LogFollows(h, last);
    if |logs| > 1 {
      var before := logs[..|logs| - 1];
      assert forall i :: 0 <= i < |before| ==> before[i] == logs[i];
      var ws, es := SessionsAreARun(h, before);
      assert Restarts(before[|before| - 1].world, last.First());
      ws, es := Restart(h, ws, es, last.First());
      worlds, events := Chain(h, ws, es, worlds, events);
    }
  }

  lemma Append(h: Hash, worlds: seq<World>, events: seq<Event>, e: Event) returns (ws: seq<World>, es: seq<Event>)
    requires Follows(h, worlds, events) && Enabled(worlds[|worlds| - 1], e)
    ensures Follows(h, ws, es) && ws[0] == worlds[0] && ws[|ws| - 1] == Apply(h, worlds[|worlds| - 1], e)
  {
    ws, es := worlds + [Apply(h, worlds[|worlds| - 1], e)], events + [e];
    forall i | 0 <= i < |es|
      ensures StepAt(h, ws, es, i)
    {
      if i < |events| {
        assert StepAt(h, worlds, events, i);
      }
    }
  }

  /** Crash, then whatever others do, as events. */
  lemma Restart(h: Hash, worlds: seq<World>, events: seq<Event>, first: World) returns (ws: seq<World>, es: seq<Event>)
    requires Follows(h, worlds, events) && Restarts(worlds[|worlds| - 1], first)
    ensures Follows(h, ws, es) && ws[0] == worlds[0] && ws[|ws| - 1] == first
  {
    ws, es := worlds, events;
    if ws[|ws| - 1].run.Some? {
      ws, es := Append(h, ws, es, Ending(Crash(first.disk.partial)));
    }
    ws, es := Append(h, ws, es, Ending(Between(first.disk.partial, first.disk.local)));
  }

  lemma Chain(h: Hash, ws: seq<World>, es: seq<Event>, vs: seq<World>, ds: seq<Event>)
    returns (worlds: seq<World>, events: seq<Event>)
    requires Follows(h, ws, es) && Follows(h, vs, ds) && ws[|ws| - 1] == vs[0]
    ensures Follows(h, worlds, events) && worlds[0] == ws[0] && worlds[|worlds| - 1] == vs[|vs| - 1]
  {
    worlds, events := ws + vs[1..], es + ds;
    forall i | 0 <= i < |events|
      ensures StepAt(h, worlds, events, i)
    {
      if i < |es| {
        assert StepAt(h, ws, es, i);
      } else {
        assert StepAt(h, vs, ds, i - |es|);
      }
    }
  }

  // ---------------------------------------------------------------- resuming after anything

  lemma DurablePrefixIsSource(h: Hash, source: Bytes, worlds: seq<World>, events: seq<Event>, i: nat)
    requires IsRun(h, worlds, events) && i < |worlds| && AllHonest(source, worlds, events)
    requires var d := worlds[i].disk; d.journal.Some? && d.partial.Some?
    ensures var d := worlds[i].disk; var n := d.journal.value.durable;
      n <= |source| && n <= |d.partial.value.Content()| && d.partial.value.Content()[..n] == source[..n]
  {
    RunKeepsPrefix(h, source, worlds, events, i);
    var d := worlds[i].disk;
    var f, n := d.partial.value, d.journal.value.durable;
    assert f.Content()[..n] == f.synced[..n];
  }

  /**
  After any crashes and resumes under an honest daemon: if the next run meets no fault and gets a
  complete delivery of the rest, it installs all of the source, exactly when nothing is durable yet
  or the partial file is still there.  See `StrandedJournal` for how it can be gone.
  */
  lemma NextRunCompletesIff(h: Hash, source: Bytes, worlds: seq<World>, events: seq<Event>, i: nat,
                            subject: Subject, newTransferId: string, j: Journal, body: seq<Frame>)
    requires IsRun(h, worlds, events) && i < |worlds| && AllHonest(source, worlds, events)
    requires worlds[i].disk.local == None && StartJournal(worlds[i].disk, subject, newTransferId) == Some(j)
    requires Agrees(h, source, j) && IsSha256Text(h(source)) && |source| <= MAX_TRANSFER_BYTES
    requires Delivers(source, j.durable, body)
    ensures var d := worlds[i].disk;
      var end := Expected(h, d, subject, newTransferId, Announcement(h, source, j.transferId) + body);
      && (end.Some? <==> j.durable == 0 || d.partial.Some?)
      && (end.Some? ==> end.value.t.hashed == source && end.value.t.received == |source|)
  {
    var d := worlds[i].disk;
    if j.durable == 0 || d.partial.Some? {
      if j.durable == 0 {
        assert source[..0] == [];
      } else {
        DurablePrefixIsSource(h, source, worlds, events, i);
      }
      CompleteDeliverySucceeds(h, d, subject, newTransferId, source, j, body);
    }
  }
}
