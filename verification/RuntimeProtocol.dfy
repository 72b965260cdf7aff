/**
Any number of processes working on one runtime directory: daemons that start, serve and exit,
and clients that remove stale files.  One action is one file operation, one lock operation, or
the death of a process, which releases its lock; actions interleave freely.

`pid_is_alive` never answers "dead" for the pid of a live process; it may answer "alive" for
the pid of a dead one, because pids are reused.
*/
module RuntimeProtocol {
  import opened Common
  import opened RuntimeFiles

  /** `published` holds from a successful publish until this process removes its own descriptor. */
  datatype Proc = Proc(id: Identity, alive: bool, pc: Pc, published: bool)

  datatype System = System(disk: Disk, lock: Option<nat>, procs: map<nat, Proc>)

  datatype Action =
    | Spawn(p: nat, id: Identity)
    | TakeLock(p: nat, to: Pc)
    | Op(p: nat, to: Pc)
    | DropLock(p: nat)
    | Die(p: nat)

  predicate Runs(s: System, p: nat) {
    p in s.procs && s.procs[p].alive
  }

  predicate PidIsLive(s: System, pid: nat) {
    exists q :: q in s.procs && s.procs[q].alive && s.procs[q].id.descriptor.pid == pid
  }

  predicate PidAnswerSound(s: System, from: Pc, to: Pc) {
    from.RecPid? && to.RecVerdict? && !to.alive ==> !PidIsLive(s, from.d.pid)
  }

  predicate WithdrawsOwn(from: Pc, to: Pc) {
    from.CuRemove? && !from.caller.FromReconcile? && to.RsMatch?
  }

  function PublishedAfter(pr: Proc, to: Pc): bool {
    to.PubDone? || (pr.published && !WithdrawsOwn(pr.pc, to))
  }

  predicate Step(s: System, a: Action, n: System) {
    match a
    case Spawn(p, id) =>
      && p !in s.procs
      && (forall q :: q in s.procs ==> s.procs[q].id.descriptor != id.descriptor)
      && n == s.(procs := s.procs[p := Proc(id, true, Idle, false)])
    case TakeLock(p, to) =>
      && Runs(s, p) && s.lock == None
      && var pr := s.procs[p];
      && (|| (pr.pc.Idle? && (to == RecDescriptor(Startup) || to == StaleDescriptor))
          || (pr.pc.Serving? && to == CuDescriptor(FromExit, pr.id.descriptor, pr.id.secret)))
      && n == s.(lock := Some(p), procs := s.procs[p := pr.(pc := to)])
    case Op(p, to) =>
      && Runs(s, p) && s.lock == Some(p)
      && var pr := s.procs[p];
      && OpStep(pr.id, Conf(pr.pc, s.disk), Conf(to, n.disk))
      && PidAnswerSound(s, pr.pc, to)
      && n.lock == s.lock
      && n.procs == s.procs[p := pr.(pc := to, published := PublishedAfter(pr, to))]
    case DropLock(p) =>
      && Runs(s, p) && s.lock == Some(p)
      && var pr := s.procs[p];
      && (pr.pc.Finished? || pr.pc.PubDone?)
      && n == s.(lock := None, procs := s.procs[p := pr.(pc := if pr.pc.PubDone? then Serving else Idle)])
    case Die(p) =>
      && Runs(s, p)
      && n == s.(lock := if s.lock == Some(p) then None else s.lock,
                 procs := s.procs[p := s.procs[p].(alive := false)])
  }

  /** No process yet; no valid descriptor on disk, but any orphan secret or unreadable leftovers. */
  predicate Init(s: System) {
    s.procs == map[] && s.lock == None && !ReadDescriptor(s.disk).Got?
  }

  predicate IsRun(states: seq<System>, actions: seq<Action>) {
    && |states| == |actions| + 1
    && Init(states[0])
    && forall i :: 0 <= i < |actions| ==> Step(states[i], actions[i], states[i + 1])
  }

  // ---------------------------------------------------------------- the invariant

  predicate DeadOwner(procs: map<nat, Proc>, d: Descriptor) {
    exists o :: o in procs && !procs[o].alive && procs[o].id.descriptor == d
  }

  /** What a process knows about the disk at each program point of its locked section. */
  predicate Knows(procs: map<nat, Proc>, disk: Disk, pr: Proc) {
    match pr.pc
    case Idle => true
    case Serving => pr.published
    case StaleDescriptor => true
    case StalePid(_) => true
    case RecDescriptor(_) => true
    case RecOrphan(_) => disk.descriptor == None
    case RecPid(_, d) => ReadDescriptor(disk) == Got(d)
    case RecVerdict(_, d, alive) => ReadDescriptor(disk) == Got(d) && (!alive ==> DeadOwner(procs, d))
    case RecSecret(_, d) => ReadDescriptor(disk) == Got(d) && DeadOwner(procs, d)
    case RecBare(_) => false
    case RecSocket(_) => disk.BothAbsent()
    case CuDescriptor(caller, d, s) =>
      if caller.FromRollback? then
        && Identity(d, s) == pr.id && d.Valid()
        && disk.secret == Some(Key(s)) && (disk.descriptor == None || disk.descriptor == Some(Record(d)))
      else MayRemove(procs, disk, pr, caller, d, s)
    case CuSecret(caller, d, s) => MayRemove(procs, disk, pr, caller, d, s)
    case CuRemove(caller, d, s) => MayRemove(procs, disk, pr, caller, d, s)
    case RsMatch(ret, s) =>
      disk.descriptor == None && (disk.secret == Some(Key(s)) || (ret.UnpublishedSecret? && disk.secret == None))
    case RsRemove(ret, s) => disk.descriptor == None && disk.secret == Some(Key(s))
    case PubDescriptor => disk.BothAbsent()
    case PubSecret => disk.BothAbsent() && pr.id.descriptor.Valid()
    case PubWriteSecret => disk.BothAbsent() && pr.id.descriptor.Valid()
    case PubWriteDescriptor =>
      disk.descriptor == None && disk.secret == Some(Key(pr.id.secret)) && pr.id.descriptor.Valid()
    case PubDone => pr.published
    case Finished => true
  }

  /** The pair on disk is `(d, s)`, and it is this process's own or that of a dead process. */
  predicate MayRemove(procs: map<nat, Proc>, disk: Disk, pr: Proc, caller: Caller, d: Descriptor, s: Secret) {
    && disk.Holds(Identity(d, s)) && d.Valid()
    && (if caller.FromReconcile? then DeadOwner(procs, d) else Identity(d, s) == pr.id)
  }

  predicate PairOnDisk(procs: map<nat, Proc>, disk: Disk) {
    ReadDescriptor(disk).Got? ==> exists o :: o in procs && disk.Holds(procs[o].id)
  }

  predicate ProcOk(s: System, p: nat)
    requires p in s.procs
  {
    var pr := s.procs[p];
    && (pr.alive && pr.pc.Locked() <==> s.lock == Some(p))
    && (pr.alive ==> Knows(s.procs, s.disk, pr))
    && (pr.alive && pr.published ==> s.disk.Holds(pr.id) && pr.id.descriptor.Valid())
  }

  predicate Inv(s: System) {
    && (s.lock.Some? ==> s.lock.value in s.procs)
    && (forall p, q :: p in s.procs && q in s.procs && p != q ==>
          s.procs[p].id.descriptor != s.procs[q].id.descriptor)
    && PairOnDisk(s.procs, s.disk)
    && (forall p :: p in s.procs ==> ProcOk(s, p))
  }

  // ---------------------------------------------------------------- one operation of the lock holder

  ghost predicate DeadStayDead(procs: map<nat, Proc>, procs': map<nat, Proc>) {
    forall d :: DeadOwner(procs, d) ==> DeadOwner(procs', d)
  }

  lemma ReconcileStepKnows(s: System, p: nat, to: Pc, n: System, pr: Proc, pr': Proc)
    requires Runs(s, p) && pr == s.procs[p] && pr' == pr.(pc := to, published := PublishedAfter(pr, to))
    requires Knows(s.procs, s.disk, pr) && OpStep(pr.id, Conf(pr.pc, s.disk), Conf(to, n.disk))
    requires DeadStayDead(s.procs, n.procs)
    requires InReconcile(pr.pc)
    requires pr.pc.RecPid? && to.RecVerdict? && !to.alive ==> DeadOwner(n.procs, pr.pc.d)
    requires pr.pc.RecSecret? ==> s.disk.secret.Some?
    ensures Knows(n.procs, n.disk, pr')
  {
  }

  lemma CleanupStepKnows(s: System, n: System, pr: Proc, to: Pc, pr': Proc)
    requires pr' == pr.(pc := to, published := PublishedAfter(pr, to))
    requires Knows(s.procs, s.disk, pr) && OpStep(pr.id, Conf(pr.pc, s.disk), Conf(to, n.disk))
    requires DeadStayDead(s.procs, n.procs)
    requires InCleanup(pr.pc)
    ensures Knows(n.procs, n.disk, pr')
  {
  }

  lemma SecretStepKnows(s: System, n: System, pr: Proc, to: Pc, pr': Proc)
    requires pr' == pr.(pc := to, published := PublishedAfter(pr, to))
    requires Knows(s.procs, s.disk, pr) && OpStep(pr.id, Conf(pr.pc, s.disk), Conf(to, n.disk))
    requires pr.pc.RsMatch? || pr.pc.RsRemove?
    ensures Knows(n.procs, n.disk, pr')
  {
  }

  lemma PublishStepKnows(s: System, n: System, pr: Proc, to: Pc, pr': Proc)
    requires pr' == pr.(pc := to, published := PublishedAfter(pr, to))
    requires Knows(s.procs, s.disk, pr) && OpStep(pr.id, Conf(pr.pc, s.disk), Conf(to, n.disk))
    requires InPublish(pr.pc)
    ensures Knows(n.procs, n.disk, pr')
  {
  }

  predicate InCleanup(pc: Pc) {
    pc.CuDescriptor? || pc.CuSecret? || pc.CuRemove?
  }

  predicate InPublish(pc: Pc) {
    pc.PubDescriptor? || pc.PubSecret? || pc.PubWriteSecret? || pc.PubWriteDescriptor?
  }

  predicate InReconcile(pc: Pc) {
    pc.StaleDescriptor? || pc.StalePid? || pc.RecDescriptor? || pc.RecOrphan? ||
    pc.RecPid? || pc.RecVerdict? || pc.RecSecret? || pc.RecBare? || pc.RecSocket?
  }

  lemma OpKeepsDead(s: System, p: nat, to: Pc, n: System)
    requires Step(s, Op(p, to), n)
    ensures DeadStayDead(s.procs, n.procs)
  {
    forall d | DeadOwner(s.procs, d) ensures DeadOwner(n.procs, d) {
      var o :| o in s.procs && !s.procs[o].alive && s.procs[o].id.descriptor == d;
      assert n.procs[o] == s.procs[o];
    }
  }

  /** A dead daemon's descriptor on disk comes with its secret. */
  lemma DescriptorReadHasSecret(s: System, p: nat)
    requires Inv(s) && Runs(s, p) && s.procs[p].pc.RecSecret?
    ensures s.disk.secret.Some?
  {
    assert ProcOk(s, p);
  }

  lemma OpKeepsKnowledge(s: System, p: nat, to: Pc, n: System)
    requires Inv(s) && Step(s, Op(p, to), n)
    ensures Knows(n.procs, n.disk, n.procs[p])
  {
    var pr, pr' := s.procs[p], n.procs[p];
    assert Knows(s.procs, s.disk, pr) by {
      assert ProcOk(s, p);
    }
    OpKeepsDead(s, p, to, n);
    if InCleanup(pr.pc) {
      CleanupStepKnows(s, n, pr, to, pr');
    } else if pr.pc.RsMatch? || pr.pc.RsRemove? {
      SecretStepKnows(s, n, pr, to, pr');
    } else if InPublish(pr.pc) {
      PublishStepKnows(s, n, pr, to, pr');
    } else {
      if pr.pc.RecPid? { VerdictMeansDead(s, p, to, n); }
      if pr.pc.RecSecret? { DescriptorReadHasSecret(s, p); }
      ReconcileStepKnows(s, p, to, n, pr, pr');
    }
  }

  /** A "dead" answer is about the publisher of the descriptor that was read. */
  lemma VerdictMeansDead(s: System, p: nat, to: Pc, n: System)
    requires Inv(s) && Step(s, Op(p, to), n) && s.procs[p].pc.RecPid?
    ensures to.RecVerdict? && !to.alive ==> DeadOwner(n.procs, s.procs[p].pc.d)
  {
    var d := s.procs[p].pc.d;
    assert ProcOk(s, p);
    var o :| o in s.procs && s.disk.Holds(s.procs[o].id);
    if to.RecVerdict? && !to.alive {
      assert !Runs(s, o);
      assert o != p;
      assert n.procs[o] == s.procs[o];
    }
  }

  /** The lock holder changes the files only while no other live daemon is published. */
  lemma OpSparesOthers(s: System, p: nat, to: Pc, n: System, q: nat)
    requires Inv(s) && Step(s, Op(p, to), n)
    requires Runs(s, q) && q != p && s.procs[q].published
    ensures n.disk == s.disk
  {
    assert ProcOk(s, p) && ProcOk(s, q);
    var pr := s.procs[p];
  }

  /** The only operation after which a new valid descriptor exists is this process's own publication. */
  lemma OpDescriptor(was: Proc, procs: map<nat, Proc>, disk: Disk, to: Pc, disk': Disk)
    requires Knows(procs, disk, was) && OpStep(was.id, Conf(was.pc, disk), Conf(to, disk'))
    ensures disk' != disk && ReadDescriptor(disk').Got? ==> was.pc.PubWriteDescriptor? && disk'.Holds(was.id)
    ensures disk' != disk && disk.Holds(was.id) ==> was.pc.CuRemove?
    ensures to.PubDone? ==> disk'.Holds(was.id) && was.id.descriptor.Valid()
  {
  }

  lemma OpKeepsPair(s: System, p: nat, to: Pc, n: System)
    requires Inv(s) && Step(s, Op(p, to), n)
    ensures PairOnDisk(n.procs, n.disk)
    ensures n.procs[p].published ==> n.disk.Holds(n.procs[p].id) && n.procs[p].id.descriptor.Valid()
  {
    assert ProcOk(s, p);
    var pr := s.procs[p];
    OpDescriptor(pr, s.procs, s.disk, to, n.disk);
    if n.disk == s.disk && ReadDescriptor(n.disk).Got? {
      var o :| o in s.procs && s.disk.Holds(s.procs[o].id);
      assert o in n.procs && n.procs[o].id == s.procs[o].id;
    } else if ReadDescriptor(n.disk).Got? {
      assert p in n.procs && n.disk.Holds(n.procs[p].id);
    }
  }

  lemma OpKeepsInv(s: System, p: nat, to: Pc, n: System)
    requires Inv(s) && Step(s, Op(p, to), n)
    ensures Inv(n)
  {
    OpKeepsPair(s, p, to, n);
    forall q | q in n.procs ensures ProcOk(n, q) {
      if q == p {
        OpStaysLocked(s.procs[p].id, Conf(s.procs[p].pc, s.disk), Conf(to, n.disk));
        OpKeepsKnowledge(s, p, to, n);
        LockHolderOk(n, p);
      } else {
        OtherOk(s, p, to, n, q);
      }
    }
  }

  lemma OpStaysLocked(me: Identity, c: Conf, n: Conf)
    requires OpStep(me, c, n)
    ensures n.pc.Locked()
  {
  }

  lemma LockHolderOk(n: System, p: nat)
    requires Runs(n, p) && n.lock == Some(p) && n.procs[p].pc.Locked()
    requires Knows(n.procs, n.disk, n.procs[p])
    requires n.procs[p].published ==> n.disk.Holds(n.procs[p].id) && n.procs[p].id.descriptor.Valid()
    ensures ProcOk(n, p)
  {
  }

  lemma OtherOk(s: System, p: nat, to: Pc, n: System, q: nat)
    requires Inv(s) && Step(s, Op(p, to), n) && q in s.procs && q != p
    ensures ProcOk(n, q)
  {
    assert ProcOk(s, q);
    if s.procs[q].alive && s.procs[q].published {
      OpSparesOthers(s, p, to, n, q);
    }
  }

  lemma StepKeepsInv(s: System, a: Action, n: System)
    requires Inv(s) && Step(s, a, n)
    ensures Inv(n)
  {
    if a.Op? {
      OpKeepsInv(s, a.p, a.to, n);
    } else {
      OtherStepKeepsInv(s, a, n);
    }
  }

  lemma OtherStepKeepsInv(s: System, a: Action, n: System)
    requires Inv(s) && Step(s, a, n) && !a.Op?
    ensures Inv(n)
  {
    OtherStepKeepsFacts(s, a, n);
    forall q | q in n.procs ensures ProcOk(n, q) {
      if q == a.p {
        ActorOk(s, a, n);
      } else {
        assert ProcOk(s, q) && n.procs[q] == s.procs[q];
        if s.procs[q].alive {
          KnowledgeSurvives(s, n, s.procs[q]);
        }
        if a.p in s.procs { assert ProcOk(s, a.p); }
      }
    }
  }

  lemma OtherStepKeepsFacts(s: System, a: Action, n: System)
    requires Inv(s) && Step(s, a, n) && !a.Op?
    ensures DeadStayDead(s.procs, n.procs) && PairOnDisk(n.procs, n.disk)
  {
    if ReadDescriptor(n.disk).Got? {
      var o :| o in s.procs && s.disk.Holds(s.procs[o].id);
      assert o in n.procs && n.procs[o].id == s.procs[o].id;
    }
    forall d | DeadOwner(s.procs, d) ensures DeadOwner(n.procs, d) {
      var o :| o in s.procs && !s.procs[o].alive && s.procs[o].id.descriptor == d;
      assert n.procs[o] == s.procs[o];
    }
  }

  lemma ActorOk(s: System, a: Action, n: System)
    requires Inv(s) && Step(s, a, n) && !a.Op?
    ensures ProcOk(n, a.p)
  {
    if a.p in s.procs { assert ProcOk(s, a.p); }
  }

  lemma KnowledgeSurvives(s: System, n: System, pr: Proc)
    requires Knows(s.procs, s.disk, pr) && n.disk == s.disk && DeadStayDead(s.procs, n.procs)
    ensures Knows(n.procs, n.disk, pr)
  {
  }

  lemma {:induction false} RunKeepsInv(states: seq<System>, actions: seq<Action>, i: nat)
    requires IsRun(states, actions) && i < |states|
    ensures Inv(states[i])
  {
    if i > 0 {
      RunKeepsInv(states, actions, i - 1);
      StepKeepsInv(states[i - 1], actions[i - 1], states[i]);
    }
  }

  // ---------------------------------------------------------------- what every run guarantees

  /** At every moment, a readable descriptor lies beside the secret written by the same publisher. */
  lemma DescriptorHasItsSecret(states: seq<System>, actions: seq<Action>, i: nat)
    requires IsRun(states, actions) && i < |states|
    requires ReadDescriptor(states[i].disk).Got?
    ensures exists o :: o in states[i].procs && states[i].disk.Holds(states[i].procs[o].id)
  {
    RunKeepsInv(states, actions, i);
  }

  /** A live daemon that published and has not withdrawn itself owns both files, whatever others do. */
  lemma PublishedDaemonOwnsFiles(states: seq<System>, actions: seq<Action>, i: nat, p: nat)
    requires IsRun(states, actions) && i < |states|
    requires Runs(states[i], p) && states[i].procs[p].published
    ensures states[i].disk.Holds(states[i].procs[p].id)
    ensures forall q :: Runs(states[i], q) && states[i].procs[q].published ==> q == p
  {
    RunKeepsInv(states, actions, i);
    assert ProcOk(states[i], p);
    forall q | Runs(states[i], q) && states[i].procs[q].published ensures q == p {
      assert ProcOk(states[i], q);
    }
  }

  /** `published` ends only by the daemon's own withdrawal or its death. */
  lemma {:induction false} PublishedUntilWithdrawal(states: seq<System>, actions: seq<Action>, i: nat, j: nat, p: nat)
    requires IsRun(states, actions) && i <= j < |states|
    requires p in states[i].procs && states[i].procs[p].pc == PubDone && Runs(states[i], p)
    requires forall k :: i <= k < j ==> actions[k] != Die(p)
    requires forall k :: i <= k < j && actions[k].Op? && actions[k].p == p && p in states[k].procs ==>
      !WithdrawsOwn(states[k].procs[p].pc, actions[k].to)
    ensures Runs(states[j], p) && states[j].procs[p].published
    ensures states[j].disk.Holds(states[i].procs[p].id)
  {
    RunKeepsInv(states, actions, j);
    if i == j {
      assert ProcOk(states[i], p);
    } else {
      PublishedUntilWithdrawal(states, actions, i, j - 1, p);
      assert Step(states[j - 1], actions[j - 1], states[j]);
      SameIdentity(states, actions, i, j, p);
      assert ProcOk(states[j], p);
    }
  }

  lemma {:induction false} SameIdentity(states: seq<System>, actions: seq<Action>, i: nat, j: nat, p: nat)
    requires IsRun(states, actions) && i <= j < |states| && p in states[i].procs
    ensures p in states[j].procs && states[j].procs[p].id == states[i].procs[p].id
  {
    if i < j {
      SameIdentity(states, actions, i, j - 1, p);
      assert Step(states[j - 1], actions[j - 1], states[j]);
    }
  }

  /** Whoever takes a descriptor off the disk is its publisher, or its publisher is dead. */
  lemma DescriptorWithdrawnByOwnerOrAfterDeath(states: seq<System>, actions: seq<Action>, i: nat, d: Descriptor)
    requires IsRun(states, actions) && i < |actions|
    requires ReadDescriptor(states[i].disk) == Got(d) && ReadDescriptor(states[i + 1].disk) != Got(d)
    ensures exists o :: o in states[i].procs && states[i].procs[o].id.descriptor == d &&
              (!states[i].procs[o].alive || (actions[i].Op? && actions[i].p == o))
  {
    RunKeepsInv(states, actions, i);
    var s, a, n := states[i], actions[i], states[i + 1];
    assert Step(s, a, n);
    assert ProcOk(s, a.p);
    var pr := s.procs[a.p];
    assert pr.pc.CuRemove?;
    if pr.pc.caller.FromReconcile? {
      assert DeadOwner(s.procs, d);
    } else {
      assert pr.id.descriptor == d;
    }
  }

  /**
  A client without the lock reads the descriptor at moment `i` and the secret at a later moment
  `j`.  Either both come from one publication, or the descriptor was withdrawn in between.
  */
  lemma LockFreeReaderIsConsistent(states: seq<System>, actions: seq<Action>, i: nat, j: nat, d: Descriptor)
    requires IsRun(states, actions) && i <= j < |states|
    requires ReadDescriptor(states[i].disk) == Got(d)
    ensures
      || (exists o :: o in states[i].procs && states[i].procs[o].id.descriptor == d &&
            ReadSecret(states[j].disk) == Got(states[i].procs[o].id.secret))
      || (exists k :: i <= k < j && Withdrawn(states[k], states[k + 1], d))
  {
    RunKeepsInv(states, actions, i);
    if forall k :: i <= k <= j ==> ReadDescriptor(states[k].disk) == Got(d) {
      RunKeepsInv(states, actions, j);
      var o :| o in states[i].procs && states[i].disk.Holds(states[i].procs[o].id);
      var o' :| o' in states[j].procs && states[j].disk.Holds(states[j].procs[o'].id);
      SameIdentity(states, actions, i, j, o);
      assert o == o';
    } else {
      var k :| i <= k <= j && ReadDescriptor(states[k].disk) != Got(d);
      FirstWithdrawal(states, i, k, d);
    }
  }

  predicate Withdrawn(s: System, n: System, d: Descriptor) {
    ReadDescriptor(s.disk) == Got(d) && ReadDescriptor(n.disk) != Got(d)
  }

  lemma {:induction false} FirstWithdrawal(states: seq<System>, i: nat, k: nat, d: Descriptor)
    requires i <= k < |states|
    requires ReadDescriptor(states[i].disk) == Got(d) && ReadDescriptor(states[k].disk) != Got(d)
    ensures exists m :: i <= m < k && Withdrawn(states[m], states[m + 1], d)
  {
    if ReadDescriptor(states[k - 1].disk) == Got(d) {
      assert Withdrawn(states[k - 1], states[k], d);
    } else {
      FirstWithdrawal(states, i, k - 1, d);
    }
  }

  /** After `reconcile_runtime` found nothing, the existence checks of `publish_runtime` cannot trip. */
  lemma PublishFindsNoFiles(states: seq<System>, actions: seq<Action>, i: nat, p: nat)
    requires IsRun(states, actions) && i < |states| && Runs(states[i], p)
    requires states[i].procs[p].pc.PubDescriptor? || states[i].procs[p].pc.PubSecret?
    ensures states[i].disk.BothAbsent()
  {
    RunKeepsInv(states, actions, i);
    assert ProcOk(states[i], p);
  }

  /** So a startup that finds no live publisher finds nothing unreadable either, unless an orphan secret is. */
  lemma StartupFindsReadableFiles(states: seq<System>, actions: seq<Action>, i: nat)
    requires IsRun(states, actions) && i < |states|
    requires !ReadDescriptor(states[i].disk).Rejected?
    ensures ReadDescriptor(states[i].disk).Got? ==> ReadSecret(states[i].disk).Got?
    ensures MayStart(states[i].disk) <==>
      (ReadDescriptor(states[i].disk) == Missing ==> !ReadSecret(states[i].disk).Rejected?)
  {
    if ReadDescriptor(states[i].disk).Got? {
      DescriptorHasItsSecret(states, actions, i);
    }
  }

  /** An unreadable or wrong-version descriptor freezes both files for good. */
  lemma {:induction false} UnreadableDescriptorFreezesFiles(states: seq<System>, actions: seq<Action>, i: nat)
    requires IsRun(states, actions) && i < |states|
    requires ReadDescriptor(states[0].disk).Rejected?
    ensures states[i].disk == states[0].disk
  {
    if i > 0 {
      UnreadableDescriptorFreezesFiles(states, actions, i - 1);
      RunKeepsInv(states, actions, i - 1);
      assert Step(states[i - 1], actions[i - 1], states[i]);
      assert actions[i - 1].p in states[i - 1].procs ==> ProcOk(states[i - 1], actions[i - 1].p);
    }
  }

  // ---------------------------------------------------------------- the code as part of a run

  /** The next thing that happens while `p` holds the lock: its own next operation, or an action of another. */
  datatype Move = Mine | Theirs(action: Action, next: System)

  /** While `p` holds the lock, others can only start or die. */
  lemma OthersOnlyStartOrDie(s: System, a: Action, n: System, p: nat)
    requires Step(s, a, n) && s.lock == Some(p) && a.p != p
    ensures a.Spawn? || a.Die?
    ensures n.disk == s.disk && n.lock == s.lock && (p in s.procs ==> p in n.procs && n.procs[p] == s.procs[p])
  {
  }

  /** The system after `p` has moved on to configuration `c`. */
  function Advanced(s: System, p: nat, c: Conf): System
    requires p in s.procs
  {
    var pr := s.procs[p];
    s.(disk := c.disk, procs := s.procs[p := pr.(pc := c.pc, published := PublishedAfter(pr, c.pc))])
  }

  /**
  `path` happens from `s` on with the actions of others between any two of its configurations, and
  `pid_is_alive` answers soundly at the moment of each answer.
  */
  predicate Interleaves(s: System, p: nat, path: seq<Conf>, moves: seq<Move>)
    requires |path| > 0
    decreases |moves|
  {
    if moves == [] then |path| == 1
    else match moves[0]
      case Mine =>
        && |path| > 1 && p in s.procs && PidAnswerSound(s, path[0].pc, path[1].pc)
        && Interleaves(Advanced(s, p, path[1]), p, path[1..], moves[1..])
      case Theirs(a, n) =>
        a.p != p && Step(s, a, n) && Interleaves(n, p, path, moves[1..])
  }

  predicate HasProc(states: seq<System>, p: nat) {
    forall i :: 0 <= i < |states| ==> p in states[i].procs
  }

  /** The configurations `p` passes through by its own operations, after the first. */
  function Trail(states: seq<System>, actions: seq<Action>, p: nat): seq<Conf>
    requires |states| == |actions| + 1 && HasProc(states, p)
  {
    if actions == [] then []
    else
      var here := if actions[0].p == p then [Conf(states[1].procs[p].pc, states[1].disk)] else [];
      here + Trail(states[1..], actions[1..], p)
  }

  predicate Follows(states: seq<System>, actions: seq<Action>) {
    |states| == |actions| + 1 && forall i :: 0 <= i < |actions| ==> Step(states[i], actions[i], states[i + 1])
  }

  predicate AllInv(states: seq<System>) {
    forall i :: 0 <= i < |states| ==> Inv(states[i])
  }

  lemma MyMove(s: System, p: nat, path: seq<Conf>) returns (n: System)
    requires Inv(s) && Runs(s, p) && s.lock == Some(p) && |path| > 1
    requires IsPath(s.procs[p].id, path) && path[0] == Conf(s.procs[p].pc, s.disk)
    requires PidAnswerSound(s, path[0].pc, path[1].pc)
    ensures n == Advanced(s, p, path[1]) && Step(s, Op(p, path[1].pc), n) && Inv(n)
    ensures Runs(n, p) && n.lock == Some(p) && n.procs[p].id == s.procs[p].id
    ensures IsPath(n.procs[p].id, path[1..]) && path[1..][0] == Conf(n.procs[p].pc, n.disk)
  {
    n := Advanced(s, p, path[1]);
    assert OpStep(s.procs[p].id, path[0], path[1]);
    assert Step(s, Op(p, path[1].pc), n);
    StepKeepsInv(s, Op(p, path[1].pc), n);
    forall i | 0 <= i < |path[1..]| - 1
      ensures OpStep(s.procs[p].id, path[1..][i], path[1..][i + 1])
    {
      assert OpStep(s.procs[p].id, path[i + 1], path[i + 2]);
    }
  }

  lemma Prepend(s: System, a: Action, n: System, states: seq<System>, actions: seq<Action>)
    requires Step(s, a, n) && Inv(s) && Follows(states, actions) && AllInv(states) && states[0] == n
    ensures Follows([s] + states, [a] + actions) && AllInv([s] + states)
  {
    var ss, aa := [s] + states, [a] + actions;
    forall i | 0 <= i < |aa|
      ensures Step(ss[i], aa[i], ss[i + 1])
    {
      if i > 0 {
        assert Step(states[i - 1], actions[i - 1], states[i]);
      }
    }
  }

  lemma TrailCons(s: System, a: Action, states: seq<System>, actions: seq<Action>, p: nat)
    requires |states| == |actions| + 1 && p in s.procs && HasProc(states, p)
    ensures HasProc([s] + states, p)
    ensures Trail([s] + states, [a] + actions, p) ==
      (if a.p == p then [Conf(states[0].procs[p].pc, states[0].disk)] else []) + Trail(states, actions, p)
  {
    assert ([s] + states)[1..] == states && ([a] + actions)[1..] == actions;
  }

  /**
  The code of `RuntimeDir` is a locked section of this protocol, whoever starts or dies meanwhile:
  from any system in which `p` holds the lock at the path's first configuration, every interleaving
  of the path with actions of others is a sequence of steps that keeps the invariant, and `p`'s own
  operations in it pass through exactly the path.
  */
  lemma {:induction false} PathIsLockedSection(s: System, p: nat, path: seq<Conf>, moves: seq<Move>)
    returns (states: seq<System>, actions: seq<Action>)
    requires Inv(s) && Runs(s, p) && s.lock == Some(p)
    requires IsPath(s.procs[p].id, path) && path[0] == Conf(s.procs[p].pc, s.disk)
    requires Interleaves(s, p, path, moves)
    ensures |actions| == |moves| && Follows(states, actions) && AllInv(states) && states[0] == s
    ensures HasProc(states, p) && path == [path[0]] + Trail(states, actions, p)
    decreases |moves|
  {
    if moves == [] {
      states, actions := [s], [];
    } else {
      var a, n, rest := Op(p, Finished), s, path;
      match moves[0] {
        case Mine =>
          n := MyMove(s, p, path);
          a, rest := Op(p, path[1].pc), path[1..];
        case Theirs(action, next) =>
          OthersOnlyStartOrDie(s, action, next, p);
          StepKeepsInv(s, action, next);
          a, n := action, next;
      }
      var more, later := PathIsLockedSection(n, p, rest, moves[1..]);
      Prepend(s, a, n, more, later);
      TrailCons(s, a, more, later, p);
      states, actions := [s] + more, [a] + later;
      if moves[0].Mine? {
        assert path == [path[0]] + path[1..];
        assert [path[1]] + Trail(more, later, p) == path[1..];
      }
    }
  }
}
