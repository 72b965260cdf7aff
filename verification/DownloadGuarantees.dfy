/** What every run of the download machine guarantees, over any number of crashes and resumes. */
module DownloadGuarantees {
  import opened Common
  import opened DownloadProtocol

  predicate Init(w: World) {
    w.run == None && w.disk.journal == None
  }

  predicate Follows(h: Hash, worlds: seq<World>, events: seq<Event>) {
    && |worlds| == |events| + 1
    && forall i :: 0 <= i < |events| ==> StepAt(h, worlds, events, i)
  }

  predicate StepAt(h: Hash, worlds: seq<World>, events: seq<Event>, i: nat)
    requires i < |events| && |worlds| == |events| + 1
  {
    Enabled(worlds[i], events[i]) && worlds[i + 1] == Apply(h, worlds[i], events[i])
  }

  predicate IsRun(h: Hash, worlds: seq<World>, events: seq<Event>) {
    Follows(h, worlds, events) && Init(worlds[0])
  }

  lemma {:induction false} RunKeepsInv(h: Hash, worlds: seq<World>, events: seq<Event>, i: nat)
    requires IsRun(h, worlds, events) && i < |worlds|
    ensures Inv(h, worlds[i])
  {
    if i > 0 {
      RunKeepsInv(h, worlds, events, i - 1);
      assert StepAt(h, worlds, events, i - 1);
      StepKeepsInv(h, worlds[i - 1], events[i - 1]);
    }
  }

  // ---------------------------------------------------------------- durable offsets

  /** On disk <= in memory <= synced length, at every moment of every run. */
  lemma DurableOffsetsOrdered(h: Hash, worlds: seq<World>, events: seq<Event>, i: nat)
    requires IsRun(h, worlds, events) && i < |worlds|
    ensures var d := worlds[i].disk;
      d.journal.Some? && d.partial.Some? ==> d.journal.value.durable <= |d.partial.value.synced|
    ensures var d, run := worlds[i].disk, worlds[i].run;
      run.Some? && !run.value.phase.Finished? ==>
        && d.journal.Some? && d.journal.value.durable <= run.value.state.durable
        && (d.partial.Some? ==> run.value.state.durable <= |d.partial.value.synced|)
  {
    RunKeepsInv(h, worlds, events, i);
  }

  /** Neither `set_len` ever extends the partial file: both keep a prefix of it. */
  lemma SetLenOnlyTruncates(h: Hash, worlds: seq<World>, events: seq<Event>, i: nat)
    requires IsRun(h, worlds, events) && i < |events|
    requires (events[i].Opening? && events[i].o.TruncatePartial?) || (events[i].Ending? && events[i].x.FailTruncate?)
    requires worlds[i].disk.partial.Some?
    ensures worlds[i + 1].disk.partial.Some?
    ensures worlds[i + 1].disk.partial.value.Content() <= worlds[i].disk.partial.value.Content()
    ensures worlds[i].run.Some?
    ensures worlds[i + 1].disk.partial == worlds[i].disk.partial ||
            |worlds[i + 1].disk.partial.value.Content()| == worlds[i].run.value.state.durable
  {
    assert StepAt(h, worlds, events, i);
    RunKeepsInv(h, worlds, events, i);
  }

  predicate JournalKept(worlds: seq<World>, i: nat, j: nat)
    requires i <= j < |worlds|
  {
    forall k :: i <= k <= j ==> worlds[k].disk.journal.Some?
  }

  /** A later version of the same journal: no less durable, and never with another identity. */
  predicate Advances(j: Journal, j': Journal) {
    && j.durable <= j'.durable && j.transferId == j'.transferId && j.subject == j'.subject
    && (j.size.Some? ==> j'.size == j.size && j'.sha256 == j.sha256)
  }

  lemma StepAdvancesJournal(h: Hash, w: World, e: Event)
    requires Inv(h, w) && Enabled(w, e)
    ensures var d, d' := w.disk, Apply(h, w, e).disk;
      d.journal.Some? && d'.journal.Some? ==> Advances(d.journal.value, d'.journal.value)
  {
    if e.Loop? && e.l.Digest? {
      assert w.disk.journal == Some(w.run.value.state);
    }
  }

  lemma RunStepAdvancesJournal(h: Hash, worlds: seq<World>, events: seq<Event>, i: nat)
    requires IsRun(h, worlds, events) && i < |events|
    ensures var d, d' := worlds[i].disk, worlds[i + 1].disk;
      d.journal.Some? && d'.journal.Some? ==> Advances(d.journal.value, d'.journal.value)
  {
    RunKeepsInv(h, worlds, events, i);
    assert StepAt(h, worlds, events, i);
    StepAdvancesJournal(h, worlds[i], events[i]);
  }

  lemma {:induction false} AdvancesIsTransitive(worlds: seq<World>, i: nat, j: nat)
    requires i <= j < |worlds| && JournalKept(worlds, i, j)
    requires forall k :: i <= k < j ==> Advances(worlds[k].disk.journal.value, worlds[k + 1].disk.journal.value)
    ensures Advances(worlds[i].disk.journal.value, worlds[j].disk.journal.value)
  {
    if i < j {
      AdvancesIsTransitive(worlds, i, j - 1);
    }
  }

  /** While a journal exists its durable offset never shrinks and its remote identity never changes. */
  lemma JournalOnlyAdvances(h: Hash, worlds: seq<World>, events: seq<Event>, i: nat, j: nat)
    requires IsRun(h, worlds, events) && i <= j < |worlds| && JournalKept(worlds, i, j)
    ensures worlds[i].disk.journal.Some? && worlds[j].disk.journal.Some?
    ensures Advances(worlds[i].disk.journal.value, worlds[j].disk.journal.value)
  {
    forall k | i <= k < j
      ensures Advances(worlds[k].disk.journal.value, worlds[k + 1].disk.journal.value)
    {
      RunStepAdvancesJournal(h, worlds, events, k);
    }
    AdvancesIsTransitive(worlds, i, j);
  }

  // ---------------------------------------------------------------- acknowledgements

  /** Acknowledgements of one run never go backwards and stay less than one window apart. */
  lemma AcksAdvance(h: Hash, worlds: seq<World>, events: seq<Event>, i: nat)
    requires IsRun(h, worlds, events) && i < |worlds| && worlds[i].run.Some?
    ensures AcksOk(worlds[i].run.value.t.acks, worlds[i].run.value.resume)
  {
    RunKeepsInv(h, worlds, events, i);
  }

  /** A later run resumes at or beyond everything an earlier run acknowledged as durable. */
  lemma ResumeCoversAcks(h: Hash, worlds: seq<World>, events: seq<Event>, i: nat, j: nat, k: nat)
    requires IsRun(h, worlds, events) && i <= j < |events| && JournalKept(worlds, i, j)
    requires events[j].Opening? && events[j].o.LoadJournal?
    requires worlds[i].run.Some? && k < |worlds[i].run.value.t.acks|
    ensures worlds[j + 1].run.Some?
    ensures worlds[i].run.value.t.acks[k].durable <= worlds[j + 1].run.value.resume
  {
    RunKeepsInv(h, worlds, events, i);
    JournalOnlyAdvances(h, worlds, events, i, j);
    assert StepAt(h, worlds, events, j);
  }

  // ---------------------------------------------------------------- a successful download

  /** The last step of a run that succeeds. */
  predicate Returns(e: Event) {
    e.Commit? && e.c.RemoveJournal?
  }

  /** `local` is a file of `n` bytes with the digest in `j`, and no longer than the size in `j`. */
  predicate MatchesRecord(h: Hash, local: Option<Bytes>, j: Journal, n: nat) {
    && local.Some? && |local.value| == n
    && j.sha256 == Some(h(local.value)) && j.size.Some? && n <= j.size.value
  }

  /**
  `Ok(n)`: the installed file has length `n` and the digest that the journal recorded, however
  long ago and by whichever run; its length does not exceed the size recorded with the digest.
  */
  lemma SuccessInstallsRecordedFile(h: Hash, worlds: seq<World>, events: seq<Event>, i: nat, j: nat, n: nat)
    requires IsRun(h, worlds, events) && i < j < |worlds| && JournalKept(worlds, i, j - 1)
    requires InPhase(worlds[j], Finished(Ok(n))) && Returns(events[j - 1])
    requires worlds[i].disk.journal.Some? && worlds[i].disk.journal.value.size.Some?
    ensures MatchesRecord(h, worlds[j].disk.local, worlds[i].disk.journal.value, n)
  {
    RunClosing(h, worlds, events, j - 1);
    JournalOnlyAdvances(h, worlds, events, i, j - 1);
  }

  /** The last step of a successful run, seen from both sides. */
  lemma ClosingStep(h: Hash, w: World, e: Event, n: World)
    requires Inv(h, w) && Enabled(w, e) && Returns(e) && n == Apply(h, w, e)
    ensures w.disk.journal.Some? && n.run.Some? && n.run.value.phase.Finished? && n.run.value.phase.result.Ok?
    ensures n.run.value.state == w.disk.journal.value
    ensures MatchesRecord(h, n.disk.local, w.disk.journal.value, n.run.value.phase.result.bytes)
  {
  }

  lemma RunClosing(h: Hash, worlds: seq<World>, events: seq<Event>, i: nat)
    requires IsRun(h, worlds, events) && i < |events| && Returns(events[i])
    ensures var w, n := worlds[i], worlds[i + 1];
      && w.disk.journal.Some? && n.run.Some? && n.run.value.phase.Finished? && n.run.value.phase.result.Ok?
      && n.run.value.state == w.disk.journal.value
      && MatchesRecord(h, n.disk.local, w.disk.journal.value, n.run.value.phase.result.bytes)
  {
    RunKeepsInv(h, worlds, events, i);
    assert StepAt(h, worlds, events, i);
    ClosingStep(h, worlds[i], events[i], worlds[i + 1]);
  }

  // ---------------------------------------------------------------- the size of a finished download

  /** The bytes of the chunk frames among `events`. */
  function ChunkBytes(events: seq<Event>): nat {
    if events == [] then 0
    else
      var last := events[|events| - 1];
      ChunkBytes(events[..|events| - 1]) + if last.Loop? && last.l.Chunk? then |last.l.data| else 0
  }

  predicate IsDone(e: Event) {
    e.Loop? && e.l.Done?
  }

  /** No way back to success. */
  predicate Lost(phase: Phase) {
    phase.Failing? || phase.FailSync? || phase == Finished(Err)
  }

  predicate BeforeDone(phase: Phase) {
    phase.Streaming? || phase.WindowSync? || phase.WindowRecord? || phase.AckDue?
  }

  /** One run streams from world `i` to world `j`: the prefix has just been hashed, and nobody starts over. */
  predicate OneStream(worlds: seq<World>, events: seq<Event>, i: nat, j: nat) {
    && i <= j < |worlds| == |events| + 1 && SameRun(worlds, i, j)
    && InPhase(worlds[i], Streaming) && worlds[i].run.value.t.received == worlds[i].run.value.resume
  }

  /** In a stream that is not lost, the count is the resume offset plus the chunk bytes, and so is that of `Done`. */
  predicate Counted(w: World, resume: nat, seen: seq<Event>) {
    var r := w.run;
    r.Some? &&
    (Lost(r.value.phase) ||
     (&& !OpeningPhase(r.value.phase) && r.value.resume == resume
      && r.value.t.received == resume + ChunkBytes(seen)
      && (forall k :: 0 <= k < |seen| && IsDone(seen[k]) ==>
            !BeforeDone(r.value.phase) && seen[k].l.bytes == r.value.t.received)
      && (!BeforeDone(r.value.phase) ==> exists k :: 0 <= k < |seen| && IsDone(seen[k]))
      && (r.value.phase.Finished? ==> r.value.phase.result == Ok(r.value.t.received))))
  }

  predicate OpeningPhase(phase: Phase) {
    phase.Loaded? || phase.Truncating? || phase.TruncateSync? || phase.Ready?
  }

  /** What an event changes of the count, and when it leaves the stream or ends it. */
  predicate CountsOn(r: Run, e: Event, r': Run) {
    && r'.resume == r.resume
    && r'.t.received == r.t.received + (if e.Loop? && e.l.Chunk? then |e.l.data| else 0)
    && (IsDone(e) ==> e.l.bytes == r'.t.received)
    && (!BeforeDone(r.phase) ==> r'.t.received == r.t.received && !IsDone(e))
    && (BeforeDone(r'.phase) <==> BeforeDone(r.phase) && !IsDone(e))
  }

  lemma LoopCountsOn(h: Hash, w: World, e: LoopEvent)
    requires LoopEnabled(w, e)
    ensures var n := ApplyLoop(h, w, e);
      w.run.Some? && n.run.Some? && (Lost(n.run.value.phase) || CountsOn(w.run.value, Loop(e), n.run.value))
  {
  }

  lemma StepCountsOn(h: Hash, w: World, e: Event)
    requires Enabled(w, e) && w.run.Some? && !OpeningPhase(w.run.value.phase) && Apply(h, w, e).run.Some?
    requires w.run.value.phase.Finished? ==> w.run.value.phase.result == Ok(w.run.value.t.received)
    ensures var r, r' := w.run.value, Apply(h, w, e).run.value;
      Lost(r.phase) || Lost(r'.phase) ||
      (&& CountsOn(r, e, r') && !OpeningPhase(r'.phase)
       && (r'.phase.Finished? ==> r'.phase.result == Ok(r'.t.received)))
  {
    match e
    case Opening(_) =>
    case Loop(l) => LoopCountsOn(h, w, l);
    case Commit(_) =>
    case Ending(_) =>
  }

  lemma LostStaysLost(h: Hash, w: World, e: Event)
    requires Enabled(w, e) && w.run.Some? && Lost(w.run.value.phase) && Apply(h, w, e).run.Some?
    ensures Lost(Apply(h, w, e).run.value.phase)
  {
    match e
    case Opening(_) =>
    case Loop(_) =>
    case Commit(_) =>
    case Ending(_) =>
  }

  lemma StepKeepsCount(h: Hash, w: World, e: Event, n: World, resume: nat, seen: seq<Event>)
    requires Counted(w, resume, seen) && Enabled(w, e) && n == Apply(h, w, e) && n.run.Some?
    ensures Counted(n, resume, seen + [e])
  {
    if Lost(w.run.value.phase) {
      LostStaysLost(h, w, e);
    } else {
      StepCountsOn(h, w, e);
      CountGoesOn(w, e, n, resume, seen);
    }
  }

  lemma CountGoesOn(w: World, e: Event, n: World, resume: nat, seen: seq<Event>)
    requires Counted(w, resume, seen) && !Lost(w.run.value.phase) && n.run.Some?
    requires var r, r' := w.run.value, n.run.value;
      Lost(r'.phase) ||
      (&& CountsOn(r, e, r') && !OpeningPhase(r'.phase)
       && (r'.phase.Finished? ==> r'.phase.result == Ok(r'.t.received)))
    ensures Counted(n, resume, seen + [e])
  {
    var all := seen + [e];
    assert all[..|seen|] == seen && all[|seen|] == e;
    assert forall k :: 0 <= k < |seen| ==> all[k] == seen[k];
    if !Lost(n.run.value.phase) && !BeforeDone(n.run.value.phase) && !BeforeDone(w.run.value.phase) {
      var k :| 0 <= k < |seen| && IsDone(seen[k]);
      assert IsDone(all[k]);
    }
  }

  lemma NothingCountedYet(w: World)
    requires InPhase(w, Streaming) && w.run.value.t.received == w.run.value.resume
    ensures Counted(w, w.run.value.resume, [])
  {
  }

  lemma NextIsCounted(h: Hash, worlds: seq<World>, events: seq<Event>, i: nat, k: nat, resume: nat)
    requires Follows(h, worlds, events) && i <= k < |events| && worlds[k + 1].run.Some?
    ensures Counted(worlds[k], resume, events[i..k]) ==> Counted(worlds[k + 1], resume, events[i..k + 1])
  {
    assert StepAt(h, worlds, events, k);
    if Counted(worlds[k], resume, events[i..k]) {
      StepKeepsCount(h, worlds[k], events[k], worlds[k + 1], resume, events[i..k]);
      assert events[i..k + 1] == events[i..k] + [events[k]];
    }
  }

  predicate SameRun(worlds: seq<World>, i: nat, j: nat)
    requires j < |worlds|
  {
    forall k :: i <= k <= j ==> worlds[k].run.Some?
  }

  lemma {:induction false} StreamIsCounted(h: Hash, worlds: seq<World>, events: seq<Event>, i: nat, j: nat)
    requires Follows(h, worlds, events) && OneStream(worlds, events, i, j)
    ensures Counted(worlds[j], worlds[i].run.value.resume, events[i..j])
    decreases j
  {
    if i == j {
      NothingCountedYet(worlds[i]);
    } else {
      StreamIsCounted(h, worlds, events, i, j - 1);
      NextIsCounted(h, worlds, events, i, j - 1, worlds[i].run.value.resume);
    }
  }

  /**
  The client never compares the received length with the recorded size.  So `Ok(n)` has the recorded
  size exactly when the frames of its run add up to it, from the resume offset on; the count in the
  daemon's `Done` frame is that sum, too, so comparing it with the size would have been enough.
  */
  lemma SuccessHasRecordedSizeIff(h: Hash, worlds: seq<World>, events: seq<Event>, i: nat, j: nat, n: nat)
    requires IsRun(h, worlds, events) && OneStream(worlds, events, i, j) && InPhase(worlds[j], Finished(Ok(n)))
    ensures var size, resume := worlds[j].run.value.state.size, worlds[i].run.value.resume;
      && size.Some?
      && (n == size.value <==> resume + ChunkBytes(events[i..j]) == size.value)
      && (exists k :: i <= k < j && IsDone(events[k]))
      && forall k :: i <= k < j && IsDone(events[k]) ==> (n == size.value <==> events[k].l.bytes == size.value)
  {
    RunKeepsInv(h, worlds, events, j);
    StreamIsCounted(h, worlds, events, i, j);
    var seen := events[i..j];
    var k :| 0 <= k < |seen| && IsDone(seen[k]);
    assert events[i + k] == seen[k];
    forall m | i <= m < j && IsDone(events[m])
      ensures events[m].l.bytes == n
    {
      assert seen[m - i] == events[m];
    }
  }

  predicate AllHonest(source: Bytes, worlds: seq<World>, events: seq<Event>) {
    |worlds| == |events| + 1 && forall k :: 0 <= k < |events| ==> Honest(source, worlds[k], events[k])
  }

  /**
  A daemon that announces the size of a non-empty source and the digest of nothing, and sends
  nothing, gets `Ok(0)`: less than the recorded size, though no byte sent was wrong.
  */
  lemma ShortDownloadAccepted(h: Hash, journal: Journal, source: Bytes)
    returns (worlds: seq<World>, events: seq<Event>)
    requires IsSha256Text(h([])) && journal.Fresh() && source != []
    ensures IsRun(h, worlds, events) && AllHonest(source, worlds, events)
    ensures var last := worlds[|worlds| - 1];
      && InPhase(last, Finished(Ok(0))) && last.run.value.state.size == Some(|source|)
      && last.disk.local == Some([]) && last.disk.local != Some(source)
  {
    worlds, events := Announce(h, journal, source, h([]));
    worlds, events := Extend(h, worlds, events, Loop(Done(0)), source);
    worlds, events := Extend(h, worlds, events, Commit(SyncFinal(true)), source);
    worlds, events := Extend(h, worlds, events, Commit(RecordFinal(true, true)), source);
    worlds, events := Extend(h, worlds, events, Commit(SyncCommit(true)), source);
    worlds, events := Extend(h, worlds, events, Commit(Link(true, true)), source);
    worlds, events := Extend(h, worlds, events, Commit(Unlink(true)), source);
    worlds, events := Extend(h, worlds, events, Commit(Confirm(true)), source);
    worlds, events := Extend(h, worlds, events, Commit(RemoveJournal(true)), source);
  }

  lemma Extend(h: Hash, worlds: seq<World>, events: seq<Event>, e: Event, source: Bytes)
    returns (ws: seq<World>, es: seq<Event>)
    requires IsRun(h, worlds, events) && Enabled(worlds[|worlds| - 1], e)
    requires AllHonest(source, worlds, events) && Honest(source, worlds[|worlds| - 1], e)
    ensures IsRun(h, ws, es) && AllHonest(source, ws, es) && ws[|ws| - 1] == Apply(h, worlds[|worlds| - 1], e)
  {
    ws := worlds + [Apply(h, worlds[|worlds| - 1], e)];
    es := events + [e];
    forall i | 0 <= i < |es|
      ensures StepAt(h, ws, es, i) && Honest(source, ws[i], es[i])
    {
      if i < |events| {
        assert StepAt(h, worlds, events, i) && Honest(source, worlds[i], events[i]);
      }
    }
  }

  // ---------------------------------------------------------------- how a partial file can go away

  predicate SuccessfulLink(e: Event) {
    e == Commit(Link(true, true))
  }

  lemma LinkedByLink(h: Hash, w: World, e: Event)
    requires Enabled(w, e)
    ensures var n := Apply(h, w, e);
      n.run.Some? && n.run.value.linked ==> SuccessfulLink(e) || (w.run.Some? && w.run.value.linked)
  {
    match e
    case Opening(_) =>
    case Loop(_) => assert Apply(h, w, e).run.value.linked == w.run.value.linked;
    case Commit(_) =>
    case Ending(_) =>
  }

  /** A run that has linked did so by an event of its own. */
  lemma {:induction false} LinkedByItsRun(h: Hash, worlds: seq<World>, events: seq<Event>, i: nat) returns (k: nat)
    requires IsRun(h, worlds, events) && i < |worlds| && worlds[i].run.Some? && worlds[i].run.value.linked
    ensures k < i && SuccessfulLink(events[k]) && SameRun(worlds, k, i)
  {
    assert StepAt(h, worlds, events, i - 1);
    LinkedByLink(h, worlds[i - 1], events[i - 1]);
    if SuccessfulLink(events[i - 1]) {
      k := i - 1;
    } else {
      k := LinkedByItsRun(h, worlds, events, i - 1);
    }
  }

  /** Nobody but the outside: a crash, or others while no client runs. */
  predicate FromOutside(e: Event) {
    e.Ending? && (e.x.Crash? || e.x.Between?)
  }

  predicate Unlinks(e: Event) {
    e == Commit(Unlink(true)) || e == Ending(LateUnlink)
  }

  lemma PartialStepsAway(h: Hash, w: World, e: Event)
    requires Inv(h, w) && Enabled(w, e) && w.disk.journal.Some? && w.disk.partial.Some?
    requires Apply(h, w, e).disk.partial == None
    ensures FromOutside(e) || (Unlinks(e) && w.run.Some? && w.run.value.linked && Installed(h, w.disk, w.run.value))
  {
  }

  /**
  The partial file a journal names disappears only by a crash, by others while no client runs, or by
  an unlink of a run that has linked; then the complete file with the recorded digest is in place.
  */
  lemma PartialDisappearsOnly(h: Hash, worlds: seq<World>, events: seq<Event>, i: nat)
    requires IsRun(h, worlds, events) && i < |events|
    requires worlds[i].disk.journal.Some? && worlds[i].disk.partial.Some? && worlds[i + 1].disk.partial == None
    ensures FromOutside(events[i]) || Unlinks(events[i])
    ensures !FromOutside(events[i]) ==>
      && worlds[i].run.Some? && Installed(h, worlds[i].disk, worlds[i].run.value)
      && exists k :: 0 <= k < i && SuccessfulLink(events[k]) && SameRun(worlds, k, i)
  {
    RunKeepsInv(h, worlds, events, i);
    assert StepAt(h, worlds, events, i);
    PartialStepsAway(h, worlds[i], events[i]);
    if !FromOutside(events[i]) {
      var k := LinkedByItsRun(h, worlds, events, i);
    }
  }

  // ---------------------------------------------------------------- a journal without its file

  /**
  When the daemon's last confirmation is lost, the partial name is already gone but the journal stays.
  If the installed file is taken away afterwards, no run can resume from that journal.
  */
  lemma StrandedJournal(h: Hash, journal: Journal, source: Bytes) returns (worlds: seq<World>, events: seq<Event>)
    requires IsSha256Text(h(source)) && journal.Fresh() && 0 < |source| <= MAX_CHUNK_BYTES
    ensures IsRun(h, worlds, events) && AllHonest(source, worlds, events)
    ensures worlds[|worlds| - 1] == World(Disk(Some(Finally(h, journal, source)), None, None), None)
  {
    worlds, events := WholeStream(h, journal, source);
    worlds, events := Extend(h, worlds, events, Commit(SyncFinal(true)), source);
    worlds, events := Extend(h, worlds, events, Commit(RecordFinal(true, true)), source);
    worlds, events := Extend(h, worlds, events, Commit(SyncCommit(true)), source);
    worlds, events := Extend(h, worlds, events, Commit(Link(true, true)), source);
    worlds, events := Extend(h, worlds, events, Commit(Unlink(true)), source);
    worlds, events := Extend(h, worlds, events, Commit(Confirm(false)), source);
    worlds, events := Extend(h, worlds, events, Ending(Exit), source);
    worlds, events := Extend(h, worlds, events, Ending(Between(None, None)), source);
  }

  /** The journal when all of the source is durable. */
  function Finally(h: Hash, journal: Journal, source: Bytes): Journal {
    journal.(size := Some(|source|), sha256 := Some(h(source)), durable := |source|)
  }

  /** A first run after the announcement of `size` and `sha256`, before any chunk. */
  function Announced(journal: Journal, size: nat, sha256: string): World {
    var state := journal.(size := Some(size), sha256 := Some(sha256));
    World(Disk(Some(state), Some(PartialFile([], [])), None),
          Some(Run(Streaming, state, 0, Transfer([], 0, 0, Some(size), Some(sha256), []))))
  }

  lemma Announce(h: Hash, journal: Journal, source: Bytes, sha256: string)
    returns (worlds: seq<World>, events: seq<Event>)
    requires IsSha256Text(sha256) && journal.Fresh()
    ensures IsRun(h, worlds, events) && AllHonest(source, worlds, events)
    ensures worlds[|worlds| - 1] == Announced(journal, |source|, sha256)
  {
    worlds, events := [World(Disk(None, None, None), None)], [];
    worlds, events := Extend(h, worlds, events, Opening(CreateJournal(journal, None, true, true)), source);
    worlds, events := Extend(h, worlds, events, Opening(OpenPartial(true)), source);
    worlds, events := Extend(h, worlds, events, Opening(Rehash(true)), source);
    assert worlds[|worlds| - 1].run.value.t == NO_TRANSFER;
    worlds, events := Extend(h, worlds, events, Loop(Progress(|source|, true)), source);
    worlds, events := Extend(h, worlds, events, Loop(Digest(journal.transferId, sha256, true, true)), source);
  }

  lemma WholeStream(h: Hash, journal: Journal, source: Bytes) returns (worlds: seq<World>, events: seq<Event>)
    requires IsSha256Text(h(source)) && journal.Fresh() && 0 < |source| <= MAX_CHUNK_BYTES
    ensures IsRun(h, worlds, events) && AllHonest(source, worlds, events)
    ensures var state := Finally(h, journal, source).(durable := 0);
      worlds[|worlds| - 1] == World(Disk(Some(state), Some(PartialFile([], source)), None),
        Some(Run(FinalSync, state, 0,
                 Transfer(source, |source|, 0, Some(|source|), Some(h(source)), [Ack(|source|, 0)]))))
  {
    worlds, events := Announce(h, journal, source, h(source));
    assert source[0..|source|] == source && [] + source == source;
    worlds, events := Extend(h, worlds, events, Loop(Chunk(source, 0, true)), source);
    assert worlds[|worlds| - 1].run.value.t.hashed == source;
    assert worlds[|worlds| - 1].disk.partial == Some(PartialFile([], source));
    worlds, events := Extend(h, worlds, events, Loop(SendAck(true)), source);
    assert worlds[|worlds| - 1].run.value.t.acks == [Ack(|source|, 0)];
    worlds, events := Extend(h, worlds, events, Loop(Done(|source|)), source);
  }

  // ---------------------------------------------------------------- an honest daemon

  /** The daemon sends the source's next bytes, from the resume offset on. */
  predicate Honest(source: Bytes, w: World, e: Event) {
    e.Loop? && e.l.Chunk? && w.run.Some? ==>
      var at := w.run.value.t.received;
      at + |e.l.data| <= |source| && e.l.data == source[at..at + |e.l.data|]
  }

  predicate AgreesTo(source: Bytes, file: Bytes, n: nat) {
    n <= |source| && n <= |file| && file[..n] == source[..n]
  }

  /** Durable prefixes are prefixes of the source, and so is everything hashed. */
  predicate PrefixOk(source: Bytes, w: World) {
    && (w.disk.journal.Some? && w.disk.partial.Some? ==>
          AgreesTo(source, w.disk.partial.value.synced, w.disk.journal.value.durable))
    && (w.run.Some? ==> w.run.value.t.hashed <= source)
    && (w.run.Some? && !w.run.value.phase.Finished? && w.disk.partial.Some? ==>
          AgreesTo(source, w.disk.partial.value.synced, w.run.value.state.durable))
  }

  lemma StepKeepsPrefix(h: Hash, source: Bytes, w: World, e: Event)
    requires Inv(h, w) && Enabled(w, e) && PrefixOk(source, w) && Honest(source, w, e)
    ensures PrefixOk(source, Apply(h, w, e))
  {
    match e
    case Opening(o) => OpeningKeepsPrefix(h, source, w, o);
    case Loop(l) =>
      if l.Chunk? { ChunkKeepsPrefix(h, source, w, l); }
      else if l.RecordWindow? { RecordWindowKeepsPrefix(h, source, w, l); }
      else { FrameKeepsPrefix(h, source, w, l); }
    case Commit(c) =>
      if c.RecordFinal? { RecordFinalKeepsPrefix(h, source, w, c); }
      else { CommitKeepsPrefix(h, source, w, c); }
    case Ending(x) => EndingKeepsPrefix(h, source, w, x);
  }

  lemma OpeningKeepsPrefix(h: Hash, source: Bytes, w: World, e: OpeningEvent)
    requires Inv(h, w) && OpeningEnabled(w, e) && PrefixOk(source, w)
    ensures PrefixOk(source, ApplyOpening(w, e))
  {
    if e.Rehash? && e.ok {
      var f, n := w.disk.partial.value, w.run.value.state.durable;
      assert f.Content()[..n] == f.synced[..n];
    }
  }

  lemma ChunkKeepsPrefix(h: Hash, source: Bytes, w: World, e: LoopEvent)
    requires Inv(h, w) && LoopEnabled(w, e) && PrefixOk(source, w) && e.Chunk? && Honest(source, w, Loop(e))
    ensures PrefixOk(source, ApplyLoop(h, w, e))
  {
    var at := w.run.value.t.received;
    assert source[..at] + source[at..at + |e.data|] == source[..at + |e.data|];
  }

  lemma FrameKeepsPrefix(h: Hash, source: Bytes, w: World, e: LoopEvent)
    requires Inv(h, w) && LoopEnabled(w, e) && PrefixOk(source, w) && !e.Chunk? && !e.RecordWindow?
    ensures PrefixOk(source, ApplyLoop(h, w, e))
  {
    if e.Digest? {
      assert w.disk.journal == Some(w.run.value.state);
    }
  }

  lemma SyncedAgrees(source: Bytes, f: PartialFile, t: Transfer)
    requires t.hashed <= source && f.tail == [] && f.Content() == t.hashed && |t.hashed| == t.received
    ensures AgreesTo(source, f.synced, t.received)
  {
    assert f.synced == f.Content();
    assert t.hashed[..|t.hashed|] == t.hashed;
  }

  lemma RecordWindowKeepsPrefix(h: Hash, source: Bytes, w: World, e: LoopEvent)
    requires Inv(h, w) && LoopEnabled(w, e) && PrefixOk(source, w) && e.RecordWindow?
    ensures PrefixOk(source, ApplyLoop(h, w, e))
  {
    SyncedAgrees(source, w.disk.partial.value, w.run.value.t);
  }

  lemma RecordFinalKeepsPrefix(h: Hash, source: Bytes, w: World, e: CommitEvent)
    requires Inv(h, w) && CommitEnabled(w, e) && PrefixOk(source, w) && e.RecordFinal?
    ensures PrefixOk(source, ApplyCommit(w, e))
  {
    SyncedAgrees(source, w.disk.partial.value, w.run.value.t);
  }

  lemma CommitKeepsPrefix(h: Hash, source: Bytes, w: World, e: CommitEvent)
    requires Inv(h, w) && CommitEnabled(w, e) && PrefixOk(source, w) && !e.RecordFinal?
    ensures PrefixOk(source, ApplyCommit(w, e))
  {
  }

  lemma EndingKeepsPrefix(h: Hash, source: Bytes, w: World, e: EndingEvent)
    requires Inv(h, w) && EndingEnabled(w, e) && PrefixOk(source, w)
    ensures PrefixOk(source, ApplyEnding(w, e))
  {
  }

  lemma {:induction false} RunKeepsPrefix(h: Hash, source: Bytes, worlds: seq<World>, events: seq<Event>, i: nat)
    requires IsRun(h, worlds, events) && i < |worlds| && AllHonest(source, worlds, events)
    ensures PrefixOk(source, worlds[i])
  {
    if i > 0 {
      RunKeepsPrefix(h, source, worlds, events, i - 1);
      RunKeepsInv(h, worlds, events, i - 1);
      assert StepAt(h, worlds, events, i - 1);
      StepKeepsPrefix(h, source, worlds[i - 1], events[i - 1]);
    }
  }

  /** Every digest of a proper prefix differs from that of the whole. */
  predicate PrefixesDiffer(h: Hash, source: Bytes) {
    forall k :: 0 <= k < |source| ==> h(source[..k]) != h(source)
  }

  /**
  Whatever crashed on the way, an honest daemon's bytes end up in place: a prefix of the source, and
  all of it exactly when the digest on record, which the daemon announced, is that of the source.
  */
  lemma HonestSuccessInstallsSource(h: Hash, source: Bytes, worlds: seq<World>, events: seq<Event>, i: nat, n: nat)
    requires IsRun(h, worlds, events) && i < |worlds| && AllHonest(source, worlds, events)
    requires InPhase(worlds[i], Finished(Ok(n)))
    ensures n <= |source| && worlds[i].disk.local == Some(source[..n])
    ensures worlds[i].disk.local == Some(source) ==> worlds[i].run.value.state.sha256 == Some(h(source))
    ensures PrefixesDiffer(h, source) ==>
      (worlds[i].disk.local == Some(source) <==> worlds[i].run.value.state.sha256 == Some(h(source)))
  {
    RunKeepsInv(h, worlds, events, i);
    RunKeepsPrefix(h, source, worlds, events, i);
    assert worlds[i].run.value.t.hashed == source[..n];
    assert source[..|source|] == source;
  }
}
