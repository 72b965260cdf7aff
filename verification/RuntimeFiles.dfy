/**
The two runtime files of the global daemon (descriptor and activation secret) and the
procedures that create and remove them under the startup lock.

`OpStep` gives the procedures as a relation over program counters, one file operation per
step, so that other processes and crashes can be placed between any two operations
(see module RuntimeProtocol).  The class `RuntimeDir` holds the procedures as code; every
method is proved to take only `OpStep` steps, and states what a caller relies on.
*/
module RuntimeFiles {
  import opened Common

  const DESCRIPTOR_SCHEMA_VERSION: nat := 1
  const IPC_PROTOCOL_VERSION_V9: nat := 9

  datatype Descriptor = Descriptor(
    version: nat,
    instanceId: string,
    pid: nat,
    endpoint: string,
    protocolMin: nat,
    protocolMax: nat,
    startedUnix: int,
    buildCommit: string)
  {
    predicate Valid() {
      && version == DESCRIPTOR_SCHEMA_VERSION
      && |instanceId| == 32 && (forall i :: 0 <= i < |instanceId| ==> IsHexDigit(instanceId[i] as int))
      && pid != 0
      && 0 < |endpoint| <= 512
      && protocolMin <= protocolMax
      && protocolMin <= IPC_PROTOCOL_VERSION_V9 <= protocolMax
      && 0 < |buildCommit| <= 128
    }
  }

  /** The 32 random bytes of an activation secret. */
  type Secret = seq<byte>

  /** What one daemon publishes. */
  datatype Identity = Identity(descriptor: Descriptor, secret: Secret)

  /** `Unparsable` also stands for a file above its size cap. */
  datatype DescriptorFile = Record(descriptor: Descriptor) | UnparsableDescriptor
  datatype SecretFile = Key(secret: Secret) | UnparsableSecret

  datatype Disk = Disk(descriptor: Option<DescriptorFile>, secret: Option<SecretFile>)
  {
    predicate BothAbsent() {
      descriptor == None && secret == None
    }

    predicate Holds(id: Identity) {
      descriptor == Some(Record(id.descriptor)) && secret == Some(Key(id.secret))
    }
  }

  datatype ReadResult<+T> = Missing | Got(value: T) | Rejected

  function ReadDescriptor(disk: Disk): ReadResult<Descriptor> {
    match disk.descriptor
    case None => Missing
    case Some(Record(d)) => if d.Valid() then Got(d) else Rejected
    case Some(UnparsableDescriptor) => Rejected
  }

  function ReadSecret(disk: Disk): ReadResult<Secret> {
    match disk.secret
    case None => Missing
    case Some(Key(s)) => Got(s)
    case Some(UnparsableSecret) => Rejected
  }

  /** Why a process holds the lock: a daemon starting up, or anyone
      removing stale files (`found` tells whether the first look saw a dead publisher). */
  datatype Task = Startup | Stale(found: bool)

  /** Where `cleanup_runtime_if_owner` returns to. */
  datatype Caller = FromReconcile(task: Task) | FromRollback | FromExit

  /** Where `remove_secret_if_matches` returns to. */
  datatype SecretCaller = OrphanSecret(task: Task) | OwnedSecret(caller: Caller) | UnpublishedSecret

  /** The next file operation of one process. */
  datatype Pc =
    | Idle
    | Serving
    | StaleDescriptor
    | StalePid(d: Descriptor)
    | RecDescriptor(task: Task)
    | RecOrphan(task: Task)
    | RecPid(task: Task, d: Descriptor)
    | RecVerdict(task: Task, d: Descriptor, alive: bool)
    | RecSecret(task: Task, d: Descriptor)
    | RecBare(task: Task)
    | RecSocket(task: Task)
    | CuDescriptor(caller: Caller, d: Descriptor, s: Secret)
    | CuSecret(caller: Caller, d: Descriptor, s: Secret)
    | CuRemove(caller: Caller, d: Descriptor, s: Secret)
    | RsMatch(ret: SecretCaller, s: Secret)
    | RsRemove(ret: SecretCaller, s: Secret)
    | PubDescriptor
    | PubSecret
    | PubWriteSecret
    | PubWriteDescriptor
    | PubDone
    | Finished
  {
    /** Every program point inside a locked section. */
    predicate Locked() {
      !Idle? && !Serving?
    }
  }

  /** The program point after `pid_is_alive` has answered. */
  function AfterPid(from: Pc, alive: bool): Pc
    requires from.RecPid? || from.StalePid?
  {
    match from
    case RecPid(task, d) => RecVerdict(task, d, alive)
    case StalePid(_) => RecDescriptor(Stale(!alive))
  }

  datatype Conf = Conf(pc: Pc, disk: Disk)

  datatype ReconcileResult = NothingLeft | Running(d: Descriptor) | ReconcileFailed

  function AfterReconcile(task: Task, r: ReconcileResult): Pc {
    if r.NothingLeft? && task.Startup? then PubDescriptor else Finished
  }

  datatype CleanupResult = Removed | NotOwner | CleanupFailed

  function AfterCleanup(me: Identity, caller: Caller, r: CleanupResult): Pc {
    match caller
    case FromReconcile(task) => if r.CleanupFailed? then Finished else RecSocket(task)
    case FromRollback => if r.NotOwner? then RsMatch(UnpublishedSecret, me.secret) else Finished
    case FromExit => Finished
  }

  function AfterSecret(me: Identity, ret: SecretCaller, ok: bool): Pc {
    match ret
    case OrphanSecret(task) => if ok then AfterReconcile(task, NothingLeft) else Finished
    case OwnedSecret(caller) => AfterCleanup(me, caller, if ok then Removed else CleanupFailed)
    case UnpublishedSecret => Finished
  }

  /** One file operation of the process with identity `me`; every operation may fail. */
  predicate OpStep(me: Identity, c: Conf, n: Conf) {
    match c.pc
    case Idle => false
    case Serving => false
    case StaleDescriptor =>
      n.disk == c.disk &&
      (n.pc == Finished ||
       match ReadDescriptor(c.disk)
       case Missing => n.pc == RecDescriptor(Stale(false))
       case Got(d) => n.pc == StalePid(d)
       case Rejected => false)
    case StalePid(_) => n.disk == c.disk && exists alive :: n.pc == AfterPid(c.pc, alive)
    case RecDescriptor(task) =>
      n.disk == c.disk &&
      (n.pc == Finished ||
       match ReadDescriptor(c.disk)
       case Missing => n.pc == RecOrphan(task)
       case Got(d) => n.pc == RecPid(task, d)
       case Rejected => false)
    case RecOrphan(task) =>
      n.disk == c.disk &&
      (n.pc == Finished ||
       match ReadSecret(c.disk)
       case Missing => n.pc == AfterReconcile(task, NothingLeft)
       case Got(s) => n.pc == RsMatch(OrphanSecret(task), s)
       case Rejected => false)
    case RecPid(_, _) => n.disk == c.disk && exists alive :: n.pc == AfterPid(c.pc, alive)
    case RecVerdict(task, d, alive) =>
      n == Conf(if alive then AfterReconcile(task, Running(d)) else RecSecret(task, d), c.disk)
    case RecSecret(task, d) =>
      n.disk == c.disk &&
      (n.pc == Finished ||
       match ReadSecret(c.disk)
       case Missing => n.pc == RecBare(task)
       case Got(s) => n.pc == CuDescriptor(FromReconcile(task), d, s)
       case Rejected => false)
    case RecBare(task) =>
      || n == Conf(RecSocket(task), c.disk.(descriptor := None))
      || n == Conf(Finished, c.disk)
    case RecSocket(task) =>
      n.disk == c.disk && (n.pc == Finished || n.pc == AfterReconcile(task, NothingLeft))
    case CuDescriptor(caller, d, s) =>
      n.disk == c.disk &&
      (n.pc == AfterCleanup(me, caller, CleanupFailed) ||
       match ReadDescriptor(c.disk)
       case Missing => n.pc == AfterCleanup(me, caller, NotOwner)
       case Got(a) => n.pc == if a == d then CuSecret(caller, d, s) else AfterCleanup(me, caller, NotOwner)
       case Rejected => false)
    case CuSecret(caller, d, s) =>
      n.disk == c.disk &&
      (n.pc == AfterCleanup(me, caller, CleanupFailed) ||
       match ReadSecret(c.disk)
       case Missing => n.pc == AfterCleanup(me, caller, NotOwner)
       case Got(a) => n.pc == if a == s then CuRemove(caller, d, s) else AfterCleanup(me, caller, NotOwner)
       case Rejected => false)
    case CuRemove(caller, d, s) =>
      || (c.disk.descriptor.Some? && n == Conf(RsMatch(OwnedSecret(caller), s), c.disk.(descriptor := None)))
      || (c.disk.descriptor.None? && n == Conf(AfterCleanup(me, caller, NotOwner), c.disk))
      || n == Conf(AfterCleanup(me, caller, CleanupFailed), c.disk)
    case RsMatch(ret, s) =>
      n.disk == c.disk &&
      (n.pc == AfterSecret(me, ret, false) ||
       match ReadSecret(c.disk)
       case Missing => n.pc == AfterSecret(me, ret, true)
       case Got(a) => n.pc == if a == s then RsRemove(ret, s) else AfterSecret(me, ret, true)
       case Rejected => false)
    case RsRemove(ret, s) =>
      || n == Conf(AfterSecret(me, ret, true), c.disk.(secret := None))
      || n == Conf(AfterSecret(me, ret, false), c.disk)
    case PubDescriptor =>
      n.disk == c.disk &&
      (n.pc == Finished || (me.descriptor.Valid() && ReadDescriptor(c.disk) == Missing && n.pc == PubSecret))
    case PubSecret =>
      n.disk == c.disk &&
      (n.pc == Finished || (ReadSecret(c.disk) == Missing && n.pc == PubWriteSecret))
    case PubWriteSecret =>
      // An atomic writer may report an error after it has committed.
      var written := c.disk.(secret := Some(Key(me.secret)));
      var rollback := RsMatch(UnpublishedSecret, me.secret);
      n == Conf(PubWriteDescriptor, written) || n == Conf(rollback, written) || n == Conf(rollback, c.disk)
    case PubWriteDescriptor =>
      var written := c.disk.(descriptor := Some(Record(me.descriptor)));
      var rollback := CuDescriptor(FromRollback, me.descriptor, me.secret);
      n == Conf(PubDone, written) || n == Conf(rollback, written) || n == Conf(rollback, c.disk)
    case PubDone => false
    case Finished => false
  }

  predicate IsPath(me: Identity, path: seq<Conf>) {
    |path| > 0 && forall i :: 0 <= i < |path| - 1 ==> OpStep(me, path[i], path[i + 1])
  }

  /** Neither file is unreadable. */
  predicate MayStart(disk: Disk) {
    !ReadDescriptor(disk).Rejected? && !ReadSecret(disk).Rejected?
  }

  datatype PublishResult =
    | Published
    | Refused          // nothing was written
    | RolledBack       // a write failed and its rollback succeeded
    | RollbackFailed

  /** The runtime directory as one process works on it while it holds the startup lock. */
  class RuntimeDir {
    var descriptor: Option<DescriptorFile>
    var secret: Option<SecretFile>
    const me: Identity
    /** How many file operations have failed, out of at most `budget` that will. */
    var faults: nat
    const budget: nat
    /** What the k-th question about a pid is answered, and how many have been asked. */
    const answers: nat -> bool
    var asked: nat
    /** Every configuration this locked section has passed through. */
    ghost var path: seq<Conf>

    constructor (me: Identity, disk: Disk, pc: Pc, budget: nat, answers: nat -> bool)
      ensures this.me == me && this.budget == budget && this.answers == answers
      ensures Now() == disk && faults == 0 && asked == 0
      ensures At(pc) && path == [Conf(pc, disk)]
    {
      this.me, this.budget, this.answers := me, budget, answers;
      descriptor, secret, faults, asked := disk.descriptor, disk.secret, 0, 0;
      path := [Conf(pc, disk)];
    }

    function Now(): Disk
      reads this`descriptor, this`secret
    {
      Disk(descriptor, secret)
    }

    ghost predicate At(pc: Pc)
      reads this
    {
      IsPath(me, path) && path[|path| - 1] == Conf(pc, Now()) && faults <= budget
    }

    ghost method Go(from: Pc, to: Pc, was: Disk)
      requires faults <= budget
      requires IsPath(me, path) && path[|path| - 1] == Conf(from, was)
      requires OpStep(me, Conf(from, was), Conf(to, Now()))
      modifies this`path
      ensures At(to) && old(path) <= path
    {
      path := path + [Conf(to, Now())];
    }

    /** The outcome of one operation; it fails only while the budget lasts. */
    method Try() returns (ok: bool)
      requires faults <= budget
      modifies this`faults
      ensures faults == old(faults) + (if ok then 0 else 1) && faults <= budget
    {
      ok := *;
      ok := ok || faults == budget;
      if !ok { faults := faults + 1; }
    }

    method RemoveSecretFile() returns (ok: bool)
      requires faults <= budget
      modifies this`secret, this`faults
      ensures secret == if ok then None else old(secret)
      ensures faults == old(faults) + (if ok then 0 else 1) && faults <= budget
    {
      ok := Try();
      if ok { secret := None; }
    }

    method RemoveDescriptorFile() returns (ok: bool)
      requires faults <= budget
      modifies this`descriptor, this`faults
      ensures descriptor == if ok then None else old(descriptor)
      ensures faults == old(faults) + (if ok then 0 else 1) && faults <= budget
    {
      ok := Try();
      if ok { descriptor := None; }
    }

    /** An atomic replacement commits or not, and may report an error after committing. */
    method WriteSecret(s: Secret) returns (ok: bool)
      requires faults <= budget
      modifies this`secret, this`faults
      ensures secret == old(secret) || secret == Some(Key(s))
      ensures ok ==> secret == Some(Key(s))
      ensures faults == old(faults) + (if ok then 0 else 1) && faults <= budget
    {
      ok := Try();
      var committed: bool := *;
      if ok || committed { secret := Some(Key(s)); }
    }

    method WriteDescriptor(d: Descriptor) returns (ok: bool)
      requires faults <= budget
      modifies this`descriptor, this`faults
      ensures descriptor == old(descriptor) || descriptor == Some(Record(d))
      ensures ok ==> descriptor == Some(Record(d))
      ensures faults == old(faults) + (if ok then 0 else 1) && faults <= budget
    {
      ok := Try();
      var committed: bool := *;
      if ok || committed { descriptor := Some(Record(d)); }
    }

    /** A read fails, or yields what the file holds. */
    method LoadDescriptor() returns (r: ReadResult<Descriptor>)
      requires faults <= budget
      modifies this`faults
      ensures r == if faults == old(faults) then ReadDescriptor(Now()) else Rejected
      ensures old(faults) <= faults <= old(faults) + 1 && faults <= budget
    {
      var ok := Try();
      r := if ok then ReadDescriptor(Now()) else Rejected;
    }

    method LoadSecret() returns (r: ReadResult<Secret>)
      requires faults <= budget
      modifies this`faults
      ensures r == if faults == old(faults) then ReadSecret(Now()) else Rejected
      ensures old(faults) <= faults <= old(faults) + 1 && faults <= budget
    {
      var ok := Try();
      r := if ok then ReadSecret(Now()) else Rejected;
    }

    /** Best-effort liveness; what it may answer is constrained by module RuntimeProtocol. */
    method PidIsAlive(ghost from: Pc, d: Descriptor) returns (alive: bool)
      requires At(from) && (from.RecPid? || from.StalePid?) && from.d == d
      modifies this`path, this`asked
      ensures At(AfterPid(from, alive)) && old(path) <= path
      ensures alive == answers(old(asked)) && asked == old(asked) + 1
    {
      alive := answers(asked);
      asked := asked + 1;
      Go(from, AfterPid(from, alive), Now());
    }

    /** Remove the secret file when it still holds `s`; `None` when a read or the removal failed. */
    method RemoveSecretIfMatches(ghost ret: SecretCaller, s: Secret) returns (removed: Option<bool>)
      requires At(RsMatch(ret, s))
      modifies this
      ensures At(AfterSecret(me, ret, removed.Some?)) && old(path) <= path
      ensures descriptor == old(descriptor)
      ensures removed.Some? && removed.value ==> old(secret) == Some(Key(s)) && secret == None
      ensures removed.Some? && !removed.value ==> secret == old(secret) && secret != Some(Key(s))
      ensures removed.None? ==> secret == old(secret)
      ensures faults >= old(faults)
      ensures removed.None? ==> faults > old(faults) || old(secret) == Some(UnparsableSecret)
      ensures asked == old(asked)
    {
      var actual := LoadSecret();
      if actual == Rejected {
        Go(RsMatch(ret, s), AfterSecret(me, ret, false), Now());
        return None;
      }
      if actual != Got(s) {
        Go(RsMatch(ret, s), AfterSecret(me, ret, true), Now());
        return Some(false);
      }
      Go(RsMatch(ret, s), RsRemove(ret, s), Now());
      ghost var was := Now();
      var gone := RemoveSecretFile();
      removed := if gone then Some(true) else None;
      Go(RsRemove(ret, s), AfterSecret(me, ret, gone), was);
    }

    /** Remove both files when they are exactly the pair `(d, s)`, the descriptor first. */
    method CleanupRuntimeIfOwner(ghost caller: Caller, d: Descriptor, s: Secret) returns (r: CleanupResult)
      requires At(CuDescriptor(caller, d, s))
      modifies this
      ensures At(AfterCleanup(me, caller, r)) && old(path) <= path
      ensures r.Removed? ==> old(Now()).Holds(Identity(d, s)) && Now().BothAbsent()
      ensures r.NotOwner? ==> Now() == old(Now()) && !Now().Holds(Identity(d, s))
      ensures r.CleanupFailed? ==> secret == old(secret) && (descriptor == old(descriptor) || descriptor == None)
      ensures !old(Now()).Holds(Identity(d, s)) ==> Now() == old(Now())
      ensures ReadDescriptor(old(Now())).Rejected? ==> r.CleanupFailed? && Now() == old(Now())
      ensures faults >= old(faults)
      ensures r.CleanupFailed? ==>
        faults > old(faults) || ReadDescriptor(old(Now())).Rejected? || ReadSecret(old(Now())).Rejected?
      ensures asked == old(asked)
    {
      var actual := LoadDescriptor();
      if actual == Rejected {
        Go(CuDescriptor(caller, d, s), AfterCleanup(me, caller, CleanupFailed), Now());
        return CleanupFailed;
      }
      if actual != Got(d) {
        Go(CuDescriptor(caller, d, s), AfterCleanup(me, caller, NotOwner), Now());
        return NotOwner;
      }
      Go(CuDescriptor(caller, d, s), CuSecret(caller, d, s), Now());
      r := CleanupIfSecretMatches(caller, d, s);
    }

    /** The rest of `CleanupRuntimeIfOwner`, once the descriptor is known to be `d`. */
    method CleanupIfSecretMatches(ghost caller: Caller, d: Descriptor, s: Secret) returns (r: CleanupResult)
      requires At(CuSecret(caller, d, s)) && descriptor == Some(Record(d))
      modifies this
      ensures At(AfterCleanup(me, caller, r)) && old(path) <= path
      ensures r.Removed? ==> old(secret) == Some(Key(s)) && Now().BothAbsent()
      ensures r.NotOwner? ==> Now() == old(Now()) && secret != Some(Key(s))
      ensures r.CleanupFailed? ==> secret == old(secret) && (descriptor == old(descriptor) || descriptor == None)
      ensures old(secret) != Some(Key(s)) ==> Now() == old(Now())
      ensures faults >= old(faults)
      ensures r.CleanupFailed? ==> faults > old(faults) || ReadSecret(old(Now())).Rejected?
      ensures asked == old(asked)
    {
      var key := LoadSecret();
      if key == Rejected {
        Go(CuSecret(caller, d, s), AfterCleanup(me, caller, CleanupFailed), Now());
        return CleanupFailed;
      }
      if key != Got(s) {
        Go(CuSecret(caller, d, s), AfterCleanup(me, caller, NotOwner), Now());
        return NotOwner;
      }
      Go(CuSecret(caller, d, s), CuRemove(caller, d, s), Now());
      r := RemovePair(caller, d, s);
    }

    /** The removals of `CleanupRuntimeIfOwner`, once both files are known to be the pair. */
    method RemovePair(ghost caller: Caller, d: Descriptor, s: Secret) returns (r: CleanupResult)
      requires At(CuRemove(caller, d, s)) && Now().Holds(Identity(d, s))
      modifies this
      ensures At(AfterCleanup(me, caller, r)) && old(path) <= path
      ensures r.Removed? || r.CleanupFailed?
      ensures r.Removed? ==> Now().BothAbsent()
      ensures r.CleanupFailed? ==> secret == old(secret) && (descriptor == old(descriptor) || descriptor == None)
      ensures faults >= old(faults) && (r.CleanupFailed? ==> faults > old(faults))
      ensures asked == old(asked)
    {
      ghost var was := Now();
      var withdrawn := RemoveDescriptorFile();
      if !withdrawn {
        Go(CuRemove(caller, d, s), AfterCleanup(me, caller, CleanupFailed), was);
        return CleanupFailed;
      }
      Go(CuRemove(caller, d, s), RsMatch(OwnedSecret(caller), s), was);
      var removed := RemoveSecretIfMatches(OwnedSecret(caller), s);
      r := if removed.Some? then Removed else CleanupFailed;
    }

    /** A live descriptor wins; a dead one goes with its matching secret; so does an orphan secret. */
    method ReconcileRuntime(ghost task: Task) returns (r: ReconcileResult)
      requires At(RecDescriptor(task))
      modifies this
      ensures At(AfterReconcile(task, r)) && old(path) <= path
      ensures r.NothingLeft? ==> Now().BothAbsent() && MayStart(old(Now()))
      ensures r.Running? ==> Now() == old(Now()) && ReadDescriptor(Now()) == Got(r.d)
      ensures r.Running? ==> Conf(RecVerdict(task, r.d, true), Now()) in path
      ensures ReadDescriptor(old(Now())).Rejected? ==> r.ReconcileFailed? && Now() == old(Now())
      ensures r.Running? ==> answers(old(asked))
      ensures faults == old(faults) ==> (r.Running? <==> ReadDescriptor(old(Now())).Got? && answers(old(asked)))
      ensures r.NothingLeft? ==> ReadDescriptor(old(Now())).Got? ==> !answers(old(asked))
      ensures faults >= old(faults)
      ensures r.ReconcileFailed? ==>
        faults > old(faults) || ReadDescriptor(old(Now())).Rejected? || ReadSecret(old(Now())).Rejected?
    {
      var actual := LoadDescriptor();
      match actual
      case Rejected =>
        Go(RecDescriptor(task), Finished, Now());
        return ReconcileFailed;
      case Missing =>
        Go(RecDescriptor(task), RecOrphan(task), Now());
        r := ReconcileOrphan(task);
      case Got(d) =>
        Go(RecDescriptor(task), RecPid(task, d), Now());
        var alive := PidIsAlive(RecPid(task, d), d);
        if alive {
          Go(RecVerdict(task, d, true), AfterReconcile(task, Running(d)), Now());
          return Running(d);
        }
        Go(RecVerdict(task, d, false), RecSecret(task, d), Now());
        r := ReconcileDead(task, d);
    }

    method ReconcileOrphan(ghost task: Task) returns (r: ReconcileResult)
      requires At(RecOrphan(task)) && descriptor == None
      modifies this
      ensures At(AfterReconcile(task, r)) && old(path) <= path
      ensures r.NothingLeft? || r.ReconcileFailed?
      ensures r.NothingLeft? ==> Now().BothAbsent() && !ReadSecret(old(Now())).Rejected?
      ensures faults >= old(faults)
      ensures r.ReconcileFailed? ==> faults > old(faults) || ReadSecret(old(Now())).Rejected?
    {
      var key := LoadSecret();
      match key
      case Rejected =>
        Go(RecOrphan(task), Finished, Now());
        r := ReconcileFailed;
      case Missing =>
        Go(RecOrphan(task), AfterReconcile(task, NothingLeft), Now());
        r := NothingLeft;
      case Got(s) =>
        Go(RecOrphan(task), RsMatch(OrphanSecret(task), s), Now());
        var removed := RemoveSecretIfMatches(OrphanSecret(task), s);
        r := if removed.Some? then NothingLeft else ReconcileFailed;
    }

    method ReconcileDead(ghost task: Task, d: Descriptor) returns (r: ReconcileResult)
      requires At(RecSecret(task, d)) && ReadDescriptor(Now()) == Got(d)
      modifies this
      ensures At(AfterReconcile(task, r)) && old(path) <= path
      ensures r.NothingLeft? || r.ReconcileFailed?
      ensures r.NothingLeft? ==> Now().BothAbsent() && !ReadSecret(old(Now())).Rejected?
      ensures faults >= old(faults)
      ensures r.ReconcileFailed? ==> faults > old(faults) || ReadSecret(old(Now())).Rejected?
    {
      var key := LoadSecret();
      match key {
        case Rejected =>
          Go(RecSecret(task, d), Finished, Now());
          return ReconcileFailed;
        case Missing =>
          Go(RecSecret(task, d), RecBare(task), Now());
          ghost var was := Now();
          var removed := RemoveDescriptorFile();
          if !removed {
            Go(RecBare(task), Finished, was);
            return ReconcileFailed;
          }
          Go(RecBare(task), RecSocket(task), was);
        case Got(s) =>
          Go(RecSecret(task, d), CuDescriptor(FromReconcile(task), d, s), Now());
          var cleaned := CleanupRuntimeIfOwner(FromReconcile(task), d, s);
          if cleaned == CleanupFailed {
            return ReconcileFailed;
          }
      }
      r := RemoveSocket(task);
    }

    /** The stale Unix socket named by the endpoint goes last. */
    method RemoveSocket(ghost task: Task) returns (r: ReconcileResult)
      requires At(RecSocket(task))
      modifies this`faults, this`path
      ensures At(AfterReconcile(task, r)) && old(path) <= path
      ensures r.NothingLeft? || r.ReconcileFailed?
      ensures faults >= old(faults) && (r.ReconcileFailed? ==> faults > old(faults))
    {
      var socketGone := Try();
      r := if socketGone then NothingLeft else ReconcileFailed;
      Go(RecSocket(task), AfterReconcile(task, r), Now());
    }

    /** Whether stale state was found; `None` when the files could not be read or removed. */
    method CleanupStaleRuntimeIfDead() returns (wasStale: Option<bool>)
      requires At(StaleDescriptor)
      modifies this
      ensures At(Finished) && old(path) <= path
      ensures wasStale.Some? ==> Conf(RecDescriptor(Stale(wasStale.value)), old(Now())) in path
      ensures wasStale.Some? && wasStale.value ==> ReadDescriptor(old(Now())).Got?
      ensures ReadDescriptor(old(Now())).Rejected? ==> wasStale == None && Now() == old(Now())
      ensures wasStale == None ==>
        faults > old(faults) || ReadDescriptor(old(Now())).Rejected? || ReadSecret(old(Now())).Rejected?
      ensures wasStale.Some? ==> (wasStale.value <==> ReadDescriptor(old(Now())).Got? && !answers(old(asked)))
      ensures wasStale.Some? ==>
        if ReadDescriptor(old(Now())).Got? && answers(old(asked) + 1) then Now() == old(Now()) else Now().BothAbsent()
      ensures wasStale.Some? && !Now().BothAbsent() ==>
        && Now() == old(Now()) && ReadDescriptor(Now()).Got?
        && Conf(RecVerdict(Stale(wasStale.value), ReadDescriptor(Now()).value, true), Now()) in path
    {
      var actual := LoadDescriptor();
      if actual == Rejected {
        Go(StaleDescriptor, Finished, Now());
        return None;
      }
      var stale := false;
      if actual.Got? {
        Go(StaleDescriptor, StalePid(actual.value), Now());
        var alive := PidIsAlive(StalePid(actual.value), actual.value);
        stale := !alive;
      } else {
        Go(StaleDescriptor, RecDescriptor(Stale(false)), Now());
      }
      var r := ReconcileRuntime(Stale(stale));
      wasStale := if r.ReconcileFailed? then None else Some(stale);
    }

    /**
    A daemon's startup under the lock: reconcile, bind the endpoint, then publish unless a live
    publisher was found.
    Without faults it publishes exactly when its descriptor is valid, both files are readable or
    absent, and no recorded process answered that it is alive.
    */
    method StartUp() returns (r: PublishResult, running: Option<Descriptor>)
      requires At(RecDescriptor(Startup))
      modifies this
      ensures At(if r.Published? then PubDone else Finished) && old(path) <= path
      ensures r.Published? ==> Now().Holds(me)
      ensures running.Some? ==> !r.Published? && Now() == old(Now()) && ReadDescriptor(Now()) == Got(running.value)
      ensures running.Some? ==> Conf(RecVerdict(Startup, running.value, true), Now()) in path
      ensures faults >= old(faults)
      ensures running.Some? ==> answers(old(asked))
      ensures faults == old(faults) ==>
        && (running.Some? <==> ReadDescriptor(old(Now())).Got? && answers(old(asked)))
        && (r.Published? <==> running == None && me.descriptor.Valid() && MayStart(old(Now())))
    {
      r, running := Refused, None;
      var found := ReconcileRuntime(Startup);
      if found.Running? {
        running := Some(found.d);
      } else if found.NothingLeft? {
        var bound := Try();
        if bound {
          r := PublishRuntime();
        } else {
          Go(PubDescriptor, Finished, Now());
        }
      }
    }

    /** Publish this process's pair: the secret first, then the descriptor as readiness signal. */
    method PublishRuntime() returns (r: PublishResult)
      requires At(PubDescriptor)
      modifies this
      ensures At(if r.Published? then PubDone else Finished) && old(path) <= path
      ensures r.Published? ==> old(Now()).BothAbsent() && me.descriptor.Valid() && Now().Holds(me)
      ensures r.Refused? ==> Now() == old(Now())
      ensures r.RolledBack? ==> old(Now()).BothAbsent() && Now().BothAbsent()
      ensures r.RollbackFailed? ==> old(Now()).BothAbsent()
      ensures ReadDescriptor(old(Now())).Rejected? ==> r.Refused?
      ensures faults >= old(faults)
      ensures me.descriptor.Valid() && old(Now()).BothAbsent() && faults == old(faults) ==> r.Published?
      ensures faults == old(faults) + 1 ==> !r.RollbackFailed?
    {
      if !me.descriptor.Valid() {
        Go(PubDescriptor, Finished, Now());
        return Refused;
      }
      var existing := LoadDescriptor();
      if existing != Missing {
        Go(PubDescriptor, Finished, Now());
        return Refused;
      }
      Go(PubDescriptor, PubSecret, Now());
      var key := LoadSecret();
      if key != Missing {
        Go(PubSecret, Finished, Now());
        return Refused;
      }
      Go(PubSecret, PubWriteSecret, Now());
      r := PublishPair();
    }

    /** The writes of `PublishRuntime`, once neither file exists. */
    method PublishPair() returns (r: PublishResult)
      requires At(PubWriteSecret) && Now().BothAbsent() && me.descriptor.Valid()
      modifies this
      ensures At(if r.Published? then PubDone else Finished) && old(path) <= path
      ensures !r.Refused?
      ensures r.Published? ==> Now().Holds(me)
      ensures r.RolledBack? ==> Now().BothAbsent()
      ensures faults >= old(faults) && (!r.Published? ==> faults > old(faults))
      ensures faults == old(faults) + 1 ==> r.RolledBack?
    {
      ghost var was := Now();
      var written := WriteSecret(me.secret);
      if written {
        Go(PubWriteSecret, PubWriteDescriptor, was);
        r := PublishDescriptor();
      } else {
        Go(PubWriteSecret, RsMatch(UnpublishedSecret, me.secret), was);
        var removed := RemoveSecretIfMatches(UnpublishedSecret, me.secret);
        r := if removed.Some? then RolledBack else RollbackFailed;
      }
    }

    method PublishDescriptor() returns (r: PublishResult)
      requires At(PubWriteDescriptor) && me.descriptor.Valid()
      requires descriptor == None && secret == Some(Key(me.secret))
      modifies this
      ensures At(if r.Published? then PubDone else Finished) && old(path) <= path
      ensures !r.Refused?
      ensures r.Published? ==> Now().Holds(me)
      ensures r.RolledBack? ==> Now().BothAbsent()
      ensures faults >= old(faults) && (!r.Published? ==> faults > old(faults))
      ensures faults == old(faults) + 1 ==> r.RolledBack?
    {
      ghost var was := Now();
      var written := WriteDescriptor(me.descriptor);
      if written {
        Go(PubWriteDescriptor, PubDone, was);
        return Published;
      }
      // The failing writer may have committed: withdraw the descriptor if it is there, then the secret.
      Go(PubWriteDescriptor, CuDescriptor(FromRollback, me.descriptor, me.secret), was);
      var cleaned := CleanupRuntimeIfOwner(FromRollback, me.descriptor, me.secret);
      match cleaned
      case Removed => r := RolledBack;
      case CleanupFailed => r := RollbackFailed;
      case NotOwner =>
        var removed := RemoveSecretIfMatches(UnpublishedSecret, me.secret);
        r := if removed.Some? then RolledBack else RollbackFailed;
    }
  }
}
