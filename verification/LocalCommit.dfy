/**
Installing a downloaded file under its destination name: a hard link that must not replace
anything, verified by inode, followed by the removal of the temporary name.

Other processes may create, rename, replace or remove names at any moment.  The link and the
removal each go to a blocking worker: either may take effect at any moment after it was queued,
even after the caller has stopped waiting and returned.
*/
module LocalCommit {
  import opened Common

  type Name = string
  type Inode = nat
  type Names = map<Name, Inode>

  /** The worker that performs the link; `Made` and `Refused` are what it did, known or not. */
  datatype LinkTask = NotSpawned | Queued | Made | Refused | Dropped

  /** The worker that removes the temporary name; nothing stops it once it is queued. */
  datatype Removal = NotAsked | Asked | Removed | NotRemoved

  /** A change of the directory by this code. */
  datatype Change = LinkMade(before: Names, after: Names) | NameRemoved(before: Names, after: Names)

  datatype Failure =
    | Expired              // past the deadline before anything was started
    | WorkerLost           // the worker's result cannot be obtained
    | ProbeFailed          // the destination could not be inspected in time
    | Conflict             // the destination exists and is not the downloaded file
    | StillPending         // the link may yet happen
    | DestinationCreated   // someone else owns the destination name
    | LinkRefused
    | IdentityLost         // linked, but the destination no longer is the downloaded file

  datatype CommitResult = Committed(partialRemoved: bool) | Failed(why: Failure)

  class LocalDirectory {
    const partial: Name
    const local: Name
    /** The inode behind the still open handle of the partial file. */
    const expected: Inode
    var names: Names
    var task: LinkTask
    var removal: Removal
    var clock: nat
    /** Operations of this code that failed or did not finish in time, and how many there are to be. */
    var faults: nat
    const budget: nat
    /** How often others changed the directory, and how often they are to. */
    var meddles: nat
    const patience: nat
    /** What this code did to the directory, in order. */
    ghost var changes: seq<Change>
    /** The directory when the destination was last verified. */
    ghost var verified: Option<Names>
    /** The directory just before the temporary name was removed. */
    ghost var removedFrom: Option<Names>

    constructor (partial: Name, local: Name, expected: Inode, names: Names, budget: nat, patience: nat)
      requires partial != local
      ensures Valid() && changes == [] && task == NotSpawned && removal == NotAsked && verified == None
      ensures this.partial == partial && this.local == local && this.expected == expected && this.names == names
      ensures this.budget == budget && this.patience == patience && faults == 0 && meddles == 0
    {
      this.budget, this.patience := budget, patience;
      this.partial, this.local, this.expected, this.names := partial, local, expected, names;
      task, removal, clock, faults := NotSpawned, NotAsked, 0, 0;
      changes, verified, removedFrom, meddles := [], None, None, 0;
    }

    ghost predicate Harmless(c: Change) {
      match c
      case LinkMade(before, after) =>
        local !in before && partial in before && after == before[local := before[partial]]
      case NameRemoved(before, after) => after == before - {partial}
    }

    ghost predicate Valid()
      reads this
    {
      && partial != local && faults <= budget && meddles <= patience
      && (forall i :: 0 <= i < |changes| ==> Harmless(changes[i]))
      && (forall i :: 0 <= i < |changes| && changes[i].LinkMade? ==> task == Made)
      && (forall i :: 0 <= i < |changes| && changes[i].NameRemoved? ==> removal == Removed)
      && (removal == Removed ==>
            && removedFrom.Some? && partial in removedFrom.value
            && NameRemoved(removedFrom.value, removedFrom.value - {partial}) in changes)
      && (verified.Some? ==> local in verified.value && verified.value[local] == expected)
    }

    twostate predicate Proceeds()
      reads this
    {
      && old(changes) <= changes && old(clock) <= clock
      && old(faults) <= faults && old(meddles) <= meddles
      && (old(task) == task || (old(task) == Queued && (task == Made || task == Refused)))
      && (old(removal) == removal || (old(removal) == Asked && (removal == Removed || removal == NotRemoved)))
    }

    twostate predicate Quiet()
      reads this
    {
      faults == old(faults) && meddles == old(meddles)
    }

    /** Left alone and without faults, only the workers change anything, and exactly when they can. */
    twostate predicate OnlyTheWorkers()
      reads this
    {
      Quiet() ==>
        && (task == old(task) && removal == old(removal) ==> names == old(names))
        && (task == Made && old(task) == Queued && removal == old(removal) ==>
              local !in old(names) && partial in old(names) && names == old(names)[local := old(names)[partial]])
        && (task == Refused && old(task) == Queued && removal == old(removal) ==>
              names == old(names) && (local in names || partial !in names))
        && (removal == Removed && old(removal) == Asked && task == old(task) ==>
              partial in old(names) && names == old(names) - {partial})
        && (removal == NotRemoved && old(removal) == Asked && task == old(task) ==>
              partial !in old(names) && names == old(names))
    }

    /** Others may do anything to the directory. */
    method Meddle()
      requires meddles <= patience
      modifies this`names, this`meddles
      ensures meddles == old(meddles) + (if names == old(names) then 0 else 1) <= patience
    {
      var now: Names := *;
      if now != names && meddles < patience {
        names, meddles := now, meddles + 1;
      }
    }

    /** The outcome of one fallible operation or wait. */
    method Try() returns (ok: bool)
      requires faults <= budget
      modifies this`faults
      ensures faults == old(faults) + (if ok then 0 else 1) <= budget
    {
      ok := *;
      ok := ok || faults == budget;
      if !ok { faults := faults + 1; }
    }

    /** Time passes; others act; queued workers may run. */
    method Interleave()
      requires Valid()
      modifies this`names, this`task, this`removal, this`clock, this`changes, this`removedFrom
      modifies this`faults, this`meddles
      ensures Valid() && Proceeds() && OnlyTheWorkers() && verified == old(verified)
      ensures task == old(task) && removal == old(removal) ==> changes == old(changes)
      ensures task == Refused && removal == old(removal) ==> changes == old(changes)
    {
      var later: int := *;
      if later > 0 { clock := clock + later; }
      LinkMayRun();
      RemovalMayRun();
    }

    method LinkMayRun()
      requires Valid()
      modifies this`names, this`task, this`changes, this`faults, this`meddles
      ensures Valid() && Proceeds() && OnlyTheWorkers()
      ensures task == old(task) || task == Refused ==> changes == old(changes)
    {
      Meddle();
      var runs: bool := *;
      if task == Queued && runs {
        RunLink();
        Meddle();
      }
    }

    method RemovalMayRun()
      requires Valid()
      modifies this`names, this`removal, this`changes, this`removedFrom, this`faults, this`meddles
      ensures Valid() && Proceeds() && OnlyTheWorkers()
      ensures removal == old(removal) ==> changes == old(changes)
    {
      Meddle();
      var runs: bool := *;
      if removal == Asked && runs {
        RunRemoval();
        Meddle();
      }
    }

    /** `link(2)`: fails when the destination name exists, or for any other reason. */
    method RunLink()
      requires Valid() && task == Queued
      modifies this`names, this`task, this`changes, this`faults
      ensures Valid() && (task == Made || task == Refused) && faults >= old(faults)
      ensures task == Refused ==> changes == old(changes) && names == old(names)
      ensures task == Refused ==> faults > old(faults) || local in names || partial !in names
      ensures task == Made ==> changes == old(changes) + [LinkMade(old(names), names)]
      ensures task == Made ==>
        local !in old(names) && partial in old(names) && names == old(names)[local := old(names)[partial]]
    {
      var ok := Try();
      if local in names || partial !in names || !ok {
        task := Refused;
      } else {
        ghost var before := names;
        names := names[local := names[partial]];
        task := Made;
        changes := changes + [LinkMade(before, names)];
      }
    }

    /** `unlink(2)` on the temporary name. */
    method RunRemoval()
      requires Valid() && removal == Asked
      modifies this`names, this`removal, this`changes, this`removedFrom, this`faults
      ensures Valid() && (removal == Removed || removal == NotRemoved) && old(changes) <= changes
      ensures faults >= old(faults)
      ensures removal == NotRemoved ==> changes == old(changes) && names == old(names)
      ensures removal == NotRemoved ==> faults > old(faults) || partial !in names
      ensures removal == Removed ==> partial in old(names) && names == old(names) - {partial}
    {
      var ok := Try();
      if partial !in names || !ok {
        removal := NotRemoved;
      } else {
        removedFrom := Some(names);
        names := names - {partial};
        removal := Removed;
        ghost var change := NameRemoved(removedFrom.value, names);
        changes := changes + [change];
        assert changes[|changes| - 1] == change;
      }
    }

    /** Compare the destination with the open handle; `None` when it could not be inspected in time. */
    method VerifyIdentity() returns (same: Option<bool>)
      requires Valid()
      modifies this
      ensures Valid() && Proceeds() && OnlyTheWorkers()
      ensures task == old(task) && removal == old(removal) ==> changes == old(changes)
      ensures same == Some(true) ==> verified == Some(names)
      ensures same != Some(true) ==> verified == old(verified)
      ensures Quiet() ==> same == Some(local in names && names[local] == expected)
    {
      Interleave();
      var answered := Try();
      if !answered {
        return None;
      }
      same := Some(local in names && names[local] == expected);
      if same.value { verified := Some(names); }
    }

    /** Wait for the worker; `None` when it has not answered in time. */
    method AwaitLink() returns (answer: Option<LinkTask>)
      requires Valid() && task != NotSpawned && task != Dropped
      modifies this`names, this`task, this`removal, this`clock, this`changes, this`removedFrom
      modifies this`faults, this`meddles
      ensures Valid() && Proceeds() && OnlyTheWorkers() && verified == old(verified)
      ensures task == old(task) && removal == old(removal) ==> changes == old(changes)
      ensures task == Refused && removal == old(removal) ==> changes == old(changes)
      ensures answer.Some? ==> answer.value == task && (task == Made || task == Refused)
      ensures faults == old(faults) ==> answer.Some?
    {
      Interleave();
      var waited := Try();
      if !waited {
        return None;
      }
      if task == Queued {
        RunLink();
      }
      answer := Some(task);
    }

    /**
    `commit_local_no_replace_with_hook_and_link`.  Whatever others do:
    every change made is `Harmless` (by `Valid`), success means the destination was verified to
    be the downloaded inode, and after the failures that say so nothing was done at all.
    `Committed(true)` means that the temporary name was removed.  So does `Committed(false)` mean that
    it was not, unless an operation failed or was not waited for: then the removal may still be
    under way.  Left alone and without faults, the outcome is decided
    by the directory alone.
    */
    method CommitNoReplace(deadline: nat) returns (r: CommitResult)
      requires Valid() && task == NotSpawned && removal == NotAsked && changes == [] && verified == None
      modifies this
      ensures Valid()
      ensures r == Failed(Expired) <==> old(clock) >= deadline
      ensures r == Failed(Expired) ==> task == NotSpawned && names == old(names)
      ensures r.Committed? ==> verified.Some?
      ensures r == Committed(true) ==> removal == Removed
      ensures faults == old(faults) && r.Committed? ==> (r == Committed(true) <==> removal == Removed)
      ensures r.Committed? <==> removal != NotAsked
      ensures r == Failed(DestinationCreated) || r == Failed(LinkRefused) ==> task == Refused
      ensures r == Failed(WorkerLost) || r == Failed(ProbeFailed) ==> faults > old(faults)
      ensures r == Failed(StillPending) || r == Failed(Conflict) ==> faults >= old(faults) + 2
      ensures task != Made ==> forall i :: 0 <= i < |changes| ==> !changes[i].LinkMade?
      ensures Quiet() && old(clock) < deadline ==> r == Expected(old(names))
      ensures Quiet() && r == Committed(true) ==> names == old(names)[local := expected] - {partial}
    {
      if clock >= deadline {
        return Failed(Expired);
      }
      task := Queued;
      r := AwaitCommit();
      if r.Committed? {
        r := FinishCommit();
      }
    }

    /** The outcome when nobody interferes and nothing fails. */
    function Expected(before: Names): CommitResult {
      if local in before then Failed(DestinationCreated)
      else if partial !in before then Failed(LinkRefused)
      else if before[partial] != expected then Failed(IdentityLost)
      else Committed(true)
    }

    /** Up to the point where the link is known to exist: `Committed(false)`, or the failure to report. */
    method AwaitCommit() returns (r: CommitResult)
      requires Valid() && task == Queued && removal == NotAsked && changes == [] && verified == None
      modifies this
      ensures Valid() && removal == NotAsked
      ensures r.Failed? ==> r != Failed(Expired)
      ensures r.Committed? ==> r == Committed(false)
      ensures r == Failed(DestinationCreated) || r == Failed(LinkRefused) ==> task == Refused
      ensures r == Failed(WorkerLost) || r == Failed(ProbeFailed) ==> faults > old(faults)
      ensures r == Failed(StillPending) || r == Failed(Conflict) ==> faults >= old(faults) + 2
      ensures task == Queued || task == Made || task == Refused || task == Dropped
      ensures faults >= old(faults) && meddles >= old(meddles)
      ensures Quiet() ==>
        if local in old(names) then r == Failed(DestinationCreated)
        else if partial !in old(names) then r == Failed(LinkRefused)
        else task == Made && r == Committed(false) && names == old(names)[local := old(names)[partial]]
    {
      var answer := AwaitLink();
      if answer == None {
        // A filesystem call cannot be cancelled: grant the worker a second, separate wait.
        answer := AwaitLink();
      }
      if answer == None {
        r := Reconcile();
      } else {
        r := Conclude(answer.value);
      }
    }

    /** The worker has not answered: only the destination itself can tell. */
    method Reconcile() returns (r: CommitResult)
      requires Valid() && removal == NotAsked && task != NotSpawned && task != Dropped
      modifies this
      ensures Valid() && removal == NotAsked && faults >= old(faults) && meddles >= old(meddles)
      ensures r == Committed(false) ==> verified.Some?
      ensures r == Committed(false) || r == Failed(ProbeFailed) || r == Failed(StillPending) || r == Failed(Conflict)
      ensures r == Failed(ProbeFailed) ==> faults > old(faults)
      ensures task == Dropped ==> old(task) == Queued && r.Failed?
      ensures task == old(task) || task == Made || task == Refused || task == Dropped
    {
      Interleave();
      var inspected := Try();
      if !inspected {
        return Failed(ProbeFailed);
      }
      if local !in names {
        DropIfQueued();
        return Failed(StillPending);
      }
      var same := VerifyIdentity();
      if same != Some(true) {
        DropIfQueued();
        return Failed(Conflict);
      }
      r := Committed(false);
    }

    /** The worker has answered. */
    method Conclude(answer: LinkTask) returns (r: CommitResult)
      requires Valid() && removal == NotAsked && task == answer && (answer == Made || answer == Refused)
      modifies this
      ensures Valid() && removal == NotAsked && task == answer && faults >= old(faults) && meddles >= old(meddles)
      ensures r == Failed(WorkerLost) || r == Failed(ProbeFailed) ==> faults > old(faults)
      ensures faults == old(faults) ==> (r == Committed(false) <==> answer == Made)
      ensures r == Committed(false) ==> answer == Made && names == old(names)
      ensures r == Failed(WorkerLost) || r == Failed(ProbeFailed) || r == Failed(DestinationCreated)
           || r == Failed(LinkRefused) || r == Committed(false)
      ensures r == Failed(DestinationCreated) || r == Failed(LinkRefused) ==> answer == Refused
      ensures Quiet() && answer == Refused ==>
        r == Failed(if local in old(names) then DestinationCreated else LinkRefused)
    {
      var joined := Try();
      if !joined {
        return Failed(WorkerLost);
      }
      if answer == Made {
        return Committed(false);
      }
      Interleave();
      var inspected := Try();
      if !inspected {
        return Failed(ProbeFailed);
      }
      r := Failed(if local in names then DestinationCreated else LinkRefused);
    }

    /** Abort stops a worker that has not started; one inside the kernel goes on. */
    method DropIfQueued()
      requires Valid()
      modifies this`task
      ensures Valid() && (task == old(task) || (old(task) == Queued && task == Dropped))
    {
      var started: bool := *;
      if task == Queued && !started { task := Dropped; }
    }

    /** Verify the destination, sync the directory, remove the temporary name. */
    method FinishCommit() returns (r: CommitResult)
      requires Valid() && removal == NotAsked
      modifies this
      ensures Valid()
      ensures r.Failed? ==> r == Failed(IdentityLost) && removal == NotAsked
      ensures r.Committed? ==> verified.Some? && removal != NotAsked
      ensures r == Committed(true) ==> removal == Removed
      ensures faults == old(faults) && r.Committed? ==> (r == Committed(true) <==> removal == Removed)
      ensures faults >= old(faults) && meddles >= old(meddles)
      ensures Quiet() && old(task) == Made && local in old(names) ==>
        if old(names)[local] != expected then r == Failed(IdentityLost)
        else if partial !in old(names) then r == Committed(false)
        else r == Committed(true) && names == old(names) - {partial}
    {
      Interleave();
      var same := VerifyIdentity();
      if same != Some(true) {
        return Failed(IdentityLost);
      }
      Interleave();
      removal := Asked;
      var removed := AwaitRemoval();
      r := Committed(removed);
    }

    /** Wait for the removal; a wait that ends early does not stop the worker. */
    method AwaitRemoval() returns (removed: bool)
      requires Valid() && removal == Asked
      modifies this`names, this`task, this`removal, this`clock, this`changes, this`removedFrom
      modifies this`faults, this`meddles
      ensures Valid() && Proceeds() && OnlyTheWorkers() && verified == old(verified)
      ensures removed ==> removal == Removed
      ensures faults == old(faults) ==> removal != Asked && (removed <==> removal == Removed)
    {
      Interleave();
      var waited := Try();
      if waited && removal == Asked {
        RunRemoval();
      }
      removed := waited && removal == Removed;
    }
  }
}
