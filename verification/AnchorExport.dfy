/**
Exporting an audit anchor: create-new, write, read back, check identities, or roll back.

The file system has directory inodes, file inodes and names; the caller-visible parent path
may be rebound to another directory.  Other processes act between any two operations and inside
the `persist` and `sync_parent` callbacks, arbitrarily: they may rename, replace, hard-link,
rewrite or rebind.  The one thing they cannot do is to link a file inode again once it has no
name left.  Every inspection establishes something about the moment at which it was made; what
holds at return is stated for the case that others act inside the callbacks only.
*/
module AnchorExport {
  import opened Common

  const MAX_AUDIT_ANCHOR_BYTES: nat := 16 * 1024

  type Name = string
  type Dir = nat
  type Inode = nat

  /** A directory entry; anything but a regular file is of no further interest. */
  datatype Entry = FileEntry(inode: Inode) | OtherEntry

  /** What the parent path names; a symbolic link to a directory still resolves. */
  datatype Binding = Unbound | BoundTo(dir: Dir) | LinkTo(dir: Dir) | NotADirectory

  datatype Fs = Fs(parent: Binding, dirs: map<Dir, map<Name, Entry>>, contents: map<Inode, Bytes>)
  {
    /** What `parent/name` resolves to. */
    function Resolve(name: Name): Option<Entry> {
      if Binds() && name in dirs[parent.dir]
      then Some(dirs[parent.dir][name]) else None
    }

    /** The parent path leads to a directory. */
    predicate Binds() {
      (parent.BoundTo? || parent.LinkTo?) && parent.dir in dirs
    }

    /** The link count of the inode is not zero. */
    predicate Linked(i: Inode) {
      exists d, n :: d in dirs && n in dirs[d] && dirs[d][n] == FileEntry(i)
    }

    /** The created file can be removed without a trace: the path names it and nothing else does, or nothing does. */
    predicate Undoable(name: Name, file: Inode) {
      match Resolve(name)
      case None => !Linked(file)
      case Some(e) => e == FileEntry(file) && !WithoutEntry(parent.dir, name).Linked(file)
    }

    predicate Knows(i: Inode) {
      i in contents || Linked(i)
    }

    function WithEntry(d: Dir, name: Name, e: Entry): Fs
      requires d in dirs
    {
      this.(dirs := dirs[d := dirs[d][name := e]])
    }

    function WithoutEntry(d: Dir, name: Name): Fs
      requires d in dirs
    {
      this.(dirs := dirs[d := dirs[d] - {name}])
    }
  }

  predicate PathIdentity(fs: Fs, name: Name, file: Inode) {
    fs.Resolve(name) == Some(FileEntry(file))
  }

  predicate ParentIdentity(fs: Fs, dir: Dir) {
    fs.parent == BoundTo(dir)
  }

  predicate BytesPersisted(fs: Fs, file: Inode, encoded: Bytes) {
    file in fs.contents && fs.contents[file] == encoded
  }

  /** The anchor is in place: through the directory opened first, to the created inode, with these bytes. */
  predicate InPlace(fs: Fs, dir: Dir, name: Name, file: Inode, encoded: Bytes) {
    && ParentIdentity(fs, dir) && dir in fs.dirs && name in fs.dirs[dir]
    && fs.dirs[dir][name] == FileEntry(file) && BytesPersisted(fs, file, encoded)
  }

  /** Without the parent check, a rebound parent holding a hard link to the same inode would pass. */
  lemma ReboundParentPassesFileChecks(fs: Fs, dir: Dir, other: Dir, name: Name, file: Inode)
    returns (rebound: Fs)
    requires file in fs.contents && InPlace(fs, dir, name, file, fs.contents[file])
    requires other in fs.dirs && other != dir
    ensures PathIdentity(rebound, name, file) && BytesPersisted(rebound, file, fs.contents[file])
    ensures dir in rebound.dirs && rebound.dirs[dir] == fs.dirs[dir] && !ParentIdentity(rebound, dir)
  {
    rebound := fs.WithEntry(other, name, FileEntry(file)).(parent := BoundTo(other));
  }

  datatype Outcome =
    | Exported
    | Rejected             // nothing was created
    | RolledBack           // failed, and the creation is undone
    | RollbackUnproven     // failed, "rollback could not be proven durable"

  predicate OnlyLink(fs: Fs, dir: Dir, name: Name, file: Inode) {
    && dir in fs.dirs && name in fs.dirs[dir] && fs.dirs[dir][name] == FileEntry(file)
    && forall d, n :: d in fs.dirs && n in fs.dirs[d] && (d != dir || n != name) ==> fs.dirs[d][n] != FileEntry(file)
  }

  lemma OnlyLinkIsUndoable(fs: Fs, dir: Dir, name: Name, file: Inode)
    requires OnlyLink(fs, dir, name, file) && ParentIdentity(fs, dir)
    ensures fs.Undoable(name, file) && PathIdentity(fs, name, file)
  {
  }

  lemma RemovalRestores(was: Fs, fs: Fs, dir: Dir, name: Name, e: Entry)
    requires dir in was.dirs && name !in was.dirs[dir] && fs.dirs == was.WithEntry(dir, name, e).dirs
    ensures fs.WithoutEntry(dir, name).dirs == was.dirs
  {
    assert was.dirs[dir][name := e] - {name} == was.dirs[dir];
  }

  /** The file system at one moment, with what had failed and changed until then. */
  datatype Moment = Moment(fs: Fs, faults: nat, inside: nat, outside: nat)

  class AnchorExporter {
    const name: Name
    /** The inode the kernel will give to the created file. */
    const file: Inode
    var fs: Fs
    /** File operations that failed, out of at most `budget` that will. */
    var faults: nat
    const budget: nat
    /** Whether the guard would still undo the creation when dropped. */
    var armed: bool
    /** How often others changed the file system inside a callback, and outside of one, and how often they may. */
    var inside: nat
    var outside: nat
    const insideLimit: nat
    const outsideLimit: nat
    /** The directory that was opened first. */
    ghost var handle: Option<Dir>
    /** What this code unlinked, in order. */
    ghost var unlinked: seq<Entry>
    /** The file system when the bytes, the path, the parent and the absence of the path were last confirmed. */
    ghost var sawBytes: Option<Fs>
    ghost var sawPath: Option<Fs>
    ghost var sawParent: Option<Fs>
    ghost var sawAbsent: Option<Fs>
    /** When the persistence failed. */
    ghost var failure: Option<Moment>

    constructor (name: Name, file: Inode, fs: Fs, budget: nat, insideLimit: nat, outsideLimit: nat)
      requires !fs.Knows(file)
      ensures this.name == name && this.file == file && this.fs == fs && Fresh() && Bounded()
      ensures this.budget == budget && this.insideLimit == insideLimit && this.outsideLimit == outsideLimit
      ensures faults == 0 && inside == 0 && outside == 0
    {
      this.name, this.file, this.fs := name, file, fs;
      this.budget, this.insideLimit, this.outsideLimit := budget, insideLimit, outsideLimit;
      failure := None;
      faults, armed, inside, outside, unlinked := 0, false, 0, 0, [];
      sawBytes, sawPath, sawParent, sawAbsent, handle := None, None, None, None, None;
    }

    /** No more fails, and others do no more, than they may. */
    predicate Bounded()
      reads this
    {
      faults <= budget && inside <= insideLimit && outside <= outsideLimit
    }

    /** Nothing has been created yet. */
    ghost predicate Fresh()
      reads this
    {
      !armed && unlinked == [] && handle == None && failure == None && !fs.Linked(file)
    }

    twostate predicate Undisturbed()
      reads this
    {
      outside == old(outside)
    }

    /** Nobody interfered and nothing failed. */
    twostate predicate Quiet()
      reads this
    {
      faults == old(faults) && inside == old(inside) && outside == old(outside)
    }

    twostate predicate Counts()
      reads this
    {
      faults >= old(faults) && inside >= old(inside) && outside >= old(outside) && Bounded()
    }

    method Try() returns (ok: bool)
      requires Bounded()
      modifies this`faults
      ensures faults == old(faults) + (if ok then 0 else 1) && Bounded()
    {
      ok := *;
      ok := ok || faults == budget;
      if !ok { faults := faults + 1; }
    }

    /** Others act between two operations. */
    method Others()
      requires Bounded()
      modifies this`fs, this`outside
      ensures Bounded()
      ensures !old(fs).Linked(file) ==> !fs.Linked(file)
      ensures outside == old(outside) + if fs == old(fs) then 0 else 1
    {
      var next: Fs := *;
      if (next.Linked(file) && !fs.Linked(file)) || outside == outsideLimit { next := fs; }
      if next != fs { outside := outside + 1; }
      fs := next;
    }

    /** A callback that should lead to `effect`; others may act, and it may report failure. */
    method Callback(effect: Fs) returns (ok: bool)
      requires Bounded() && (fs.Linked(file) <==> effect.Linked(file))
      modifies this`fs, this`faults, this`inside
      ensures Bounded()
      ensures !old(fs).Linked(file) ==> !fs.Linked(file)
      ensures inside == old(inside) + if fs == effect then 0 else 1
      ensures faults == old(faults) + if ok then 0 else 1
    {
      var next: Fs := *;
      if (next.Linked(file) && !fs.Linked(file)) || inside == insideLimit { next := effect; }
      if next != effect { inside := inside + 1; }
      fs := next;
      ok := Try();
    }

    // -------------------------------------------------------------- inspections

    method VerifyBytes(encoded: Bytes) returns (ok: bool)
      requires Bounded()
      modifies this`fs, this`outside, this`faults, this`sawBytes
      ensures Counts() && inside == old(inside) && (!old(fs).Linked(file) ==> !fs.Linked(file))
      ensures faults <= old(faults) + 1 && (ok ==> faults == old(faults))
      ensures Undisturbed() ==> fs == old(fs)
      ensures ok ==> sawBytes == Some(fs) && BytesPersisted(fs, file, encoded)
      ensures Quiet() ==> (ok <==> BytesPersisted(fs, file, encoded))
    {
      Others();
      ok := Try();
      ok := ok && BytesPersisted(fs, file, encoded);
      if ok { sawBytes := Some(fs); }
    }

    method EnsurePathIdentity() returns (ok: bool)
      requires Bounded()
      modifies this`fs, this`outside, this`faults, this`sawPath
      ensures Counts() && inside == old(inside) && (!old(fs).Linked(file) ==> !fs.Linked(file))
      ensures faults <= old(faults) + 1 && (ok ==> faults == old(faults))
      ensures Undisturbed() ==> fs == old(fs)
      ensures ok ==> sawPath == Some(fs) && PathIdentity(fs, name, file)
      ensures Quiet() ==> (ok <==> PathIdentity(fs, name, file))
    {
      Others();
      ok := Try();
      ok := ok && PathIdentity(fs, name, file);
      if ok { sawPath := Some(fs); }
    }

    method EnsureParentIdentity(dir: Dir) returns (ok: bool)
      requires Bounded()
      modifies this`fs, this`outside, this`faults, this`sawParent
      ensures Counts() && inside == old(inside) && (!old(fs).Linked(file) ==> !fs.Linked(file))
      ensures faults <= old(faults) + 1 && (ok ==> faults == old(faults))
      ensures Undisturbed() ==> fs == old(fs)
      ensures ok ==> sawParent == Some(fs) && ParentIdentity(fs, dir)
      ensures Quiet() ==> (ok <==> ParentIdentity(fs, dir))
    {
      Others();
      ok := Try();
      ok := ok && ParentIdentity(fs, dir);
      if ok { sawParent := Some(fs); }
    }

    method EnsurePathAbsent() returns (ok: bool)
      requires Bounded()
      modifies this`fs, this`outside, this`faults, this`sawAbsent
      ensures Counts() && inside == old(inside) && (!old(fs).Linked(file) ==> !fs.Linked(file))
      ensures faults <= old(faults) + 1 && (ok ==> faults == old(faults))
      ensures Undisturbed() ==> fs == old(fs)
      ensures ok ==> sawAbsent == Some(fs) && fs.Resolve(name) == None
      ensures Quiet() ==> (ok <==> fs.Resolve(name) == None)
    {
      Others();
      ok := Try();
      ok := ok && fs.Resolve(name) == None;
      if ok { sawAbsent := Some(fs); }
    }

    // -------------------------------------------------------------- rollback

    /** `AnchorCreateRollback::fail`. */
    method RollBack() returns (r: Outcome)
      requires armed && unlinked == [] && Bounded()
      modifies this`fs, this`faults, this`armed, this`inside, this`outside, this`unlinked, this`sawAbsent
      ensures !armed && (r == RolledBack || r == RollbackUnproven) && Counts()
      ensures r == RolledBack ==> !fs.Linked(file)
      ensures r == RolledBack ==> sawAbsent == Some(fs) && fs.Resolve(name) == None
      ensures |unlinked| <= 1
      ensures Undisturbed() && unlinked != [] ==>
        unlinked == [FileEntry(file)] && old(fs).Resolve(name) == Some(FileEntry(file))
      ensures Quiet() ==> (r == RolledBack <==> old(fs).Undoable(name, file))
      ensures Quiet() ==>
        fs == if PathIdentity(old(fs), name, file) then old(fs).WithoutEntry(old(fs).parent.dir, name) else old(fs)
    {
      var removed := RemoveCreatedIfSame();
      armed := false;
      var absentBefore := EnsurePathAbsent();
      var synced := Callback(fs);
      var absentAfter := EnsurePathAbsent();
      r := if removed && absentBefore && synced && absentAfter then RolledBack else RollbackUnproven;
    }

    /**
    Unlink the path if it still names the created inode; succeed only when no link is left.  The
    kernel has no unlink by inode, so what is unlinked is what the path names by then: the created
    inode, if nobody changed the path since it was inspected.
    */
    method RemoveCreatedIfSame() returns (ok: bool)
      requires Bounded()
      modifies this`fs, this`faults, this`outside, this`unlinked
      ensures Counts() && inside == old(inside)
      ensures ok ==> !fs.Linked(file)
      ensures !old(fs).Linked(file) ==> !fs.Linked(file)
      ensures unlinked == old(unlinked) || (|unlinked| == |old(unlinked)| + 1 && old(unlinked) <= unlinked)
      ensures Undisturbed() && unlinked == old(unlinked) ==> fs == old(fs)
      ensures Undisturbed() && unlinked != old(unlinked) ==>
        && unlinked == old(unlinked) + [FileEntry(file)]
        && old(fs).Resolve(name) == Some(FileEntry(file))
        && fs == old(fs).WithoutEntry(old(fs).parent.dir, name)
      ensures Undisturbed() && ok ==> fs.Resolve(name) == None
      ensures Quiet() ==> (ok <==> old(fs).Undoable(name, file))
      ensures Quiet() ==> (unlinked != old(unlinked) <==> PathIdentity(old(fs), name, file))
    {
      Others();
      ok := Try();
      if !ok { return; }
      var actual := fs.Resolve(name);
      if actual == None {
        return !fs.Linked(file);
      }
      if actual != Some(FileEntry(file)) {
        return false;
      }
      ok := UnlinkPath();
      if ok {
        Others();
        ok := !fs.Linked(file);
      }
    }

    /** `remove_file` on the path. */
    method UnlinkPath() returns (ok: bool)
      requires Bounded()
      modifies this`fs, this`faults, this`outside, this`unlinked
      ensures Counts() && inside == old(inside)
      ensures !old(fs).Linked(file) ==> !fs.Linked(file)
      ensures if ok then |unlinked| == |old(unlinked)| + 1 && old(unlinked) <= unlinked else unlinked == old(unlinked)
      ensures Undisturbed() && old(fs).Resolve(name).Some? ==>
        if ok then unlinked == old(unlinked) + [old(fs).Resolve(name).value]
                   && fs == old(fs).WithoutEntry(old(fs).parent.dir, name)
        else fs == old(fs)
      ensures Quiet() && old(fs).Resolve(name).Some? ==> ok
    {
      Others();
      ok := Try();
      if !ok || fs.Resolve(name) == None { return false; }
      unlinked := unlinked + [fs.Resolve(name).value];
      fs := fs.WithoutEntry(fs.parent.dir, name);
    }

    /** The guard's destructor, for a caller that unwinds: undo the creation unless committed or failed. */
    method DropGuard()
      requires Bounded()
      modifies this`fs, this`faults, this`armed, this`outside, this`unlinked
      ensures !old(armed) ==> fs == old(fs) && unlinked == old(unlinked)
      ensures unlinked == old(unlinked) || |unlinked| == |old(unlinked)| + 1
      ensures Undisturbed() && unlinked != old(unlinked) ==>
        unlinked == old(unlinked) + [FileEntry(file)] && old(fs).Resolve(name) == Some(FileEntry(file))
      ensures !armed && Counts()
      ensures Quiet() && old(armed) ==> (unlinked != old(unlinked) <==> PathIdentity(old(fs), name, file))
    {
      if armed {
        var _ := RemoveCreatedIfSame();
        armed := false;
      }
    }

    // -------------------------------------------------------------- export

    /** Each of the last inspections held when it was made. */
    ghost predicate Confirmed(dir: Dir, encoded: Bytes)
      reads this
    {
      && handle == Some(dir)
      && sawBytes.Some? && BytesPersisted(sawBytes.value, file, encoded)
      && sawPath.Some? && PathIdentity(sawPath.value, name, file)
      && sawParent == Some(fs) && ParentIdentity(fs, dir)
    }

    /**
    `write_audit_anchor_create_new_with_checks`; `dir` is the directory opened first.  Success means
    that bytes, path and parent were each confirmed after the last callback, in this order, the
    parent at return; if others act inside the callbacks only, the anchor is in place at return.
    */
    method Export(encoded: Bytes) returns (r: Outcome, dir: Dir)
      requires Fresh() && Bounded()
      modifies this
      ensures !armed && |unlinked| <= 1 && Counts()
      ensures r == Exported ==> Confirmed(dir, encoded) && unlinked == []
      ensures r == Rejected ==> !fs.Linked(file) && unlinked == []
      ensures r == RolledBack ==> !fs.Linked(file) && sawAbsent == Some(fs) && fs.Resolve(name) == None
      ensures Undisturbed() ==> unlinked == [] || unlinked == [FileEntry(file)]
      ensures Undisturbed() && r == Exported ==>
        old(fs).parent == BoundTo(dir) && InPlace(fs, dir, name, file, encoded)
      ensures Undisturbed() && r == Rejected ==> fs == old(fs)
      ensures Undisturbed() && r != Rejected ==> old(CanExport(encoded))
      ensures Quiet() ==>
        (r == Exported <==> old(CanExport(encoded))) && (r == Rejected <==> !old(CanExport(encoded)))
      ensures r == RolledBack || r == RollbackUnproven ==>
        && failure.Some? && failure.value.faults >= old(faults)
        && (failure.value == Moment(failure.value.fs, faults, inside, outside) ==>
              (r == RolledBack <==> failure.value.fs.Undoable(name, file)))
      ensures Undisturbed() && inside == old(inside) && faults == old(faults) + 1 && r != Rejected ==>
        r == RolledBack && fs.dirs == old(fs).dirs && fs.parent == old(fs).parent
    {
      r, dir := Rejected, 0;
      if |encoded| == 0 || |encoded| > MAX_AUDIT_ANCHOR_BYTES { return; }
      Others();
      var found := Try();
      if !found || !fs.parent.BoundTo? { return; }
      dir := fs.parent.dir;
      handle := Some(dir);
      var same := EnsureParentIdentity(dir);
      if !same { return; }
      var created := CreateNew();
      if !created { return; }
      r := PersistOrRollBack(encoded, dir);
    }

    /** The guarded part of the export, once the file is created. */
    method PersistOrRollBack(encoded: Bytes, dir: Dir) returns (r: Outcome)
      requires !armed && unlinked == [] && handle == Some(dir) && failure == None && Bounded()
      modifies this
      ensures !armed && |unlinked| <= 1 && Counts() && handle == old(handle)
      ensures r == Exported || r == RolledBack || r == RollbackUnproven
      ensures r == Exported ==> Confirmed(dir, encoded) && unlinked == []
      ensures r == RolledBack ==> !fs.Linked(file) && sawAbsent == Some(fs) && fs.Resolve(name) == None
      ensures Undisturbed() ==> unlinked == [] || unlinked == [FileEntry(file)]
      ensures Undisturbed() && r == Exported ==> InPlace(fs, dir, name, file, encoded)
      ensures Quiet() && OnlyLink(old(fs), dir, name, file) && ParentIdentity(old(fs), dir) ==> r == Exported
      ensures r != Exported ==>
        && failure.Some? && failure.value.faults >= old(faults)
        && (failure.value == Moment(failure.value.fs, faults, inside, outside) ==>
              (r == RolledBack <==> failure.value.fs.Undoable(name, file)))
      ensures Undisturbed() && inside == old(inside) && faults == old(faults) + 1 &&
              OnlyLink(old(fs), dir, name, file) && ParentIdentity(old(fs), dir) ==>
        r == RolledBack && fs.dirs == old(fs).WithoutEntry(dir, name).dirs && fs.parent == old(fs).parent
    {
      armed := true;
      var ok := PersistChecked(encoded, dir);
      if ok {
        armed := false;
        r := Exported;
      } else {
        failure := Some(Moment(fs, faults, inside, outside));
        if OnlyLink(fs, dir, name, file) && ParentIdentity(fs, dir) {
          OnlyLinkIsUndoable(fs, dir, name, file);
        }
        r := RollBack();
      }
    }

    /** `create_new` through the path as it is bound by then. */
    method CreateNew() returns (ok: bool)
      requires !fs.Linked(file) && Bounded()
      modifies this`fs, this`outside, this`faults
      ensures Counts() && inside == old(inside)
      ensures !ok ==> !fs.Linked(file) && (Undisturbed() ==> fs == old(fs))
      ensures Undisturbed() && ok ==>
        && old(fs).Binds() && old(fs).Resolve(name) == None
        && fs.parent == old(fs).parent && OnlyLink(fs, fs.parent.dir, name, file)
        && fs.WithoutEntry(fs.parent.dir, name).dirs == old(fs).dirs
      ensures ok ==> faults == old(faults)
      ensures Quiet() ==> (ok <==> old(fs).Binds() && old(fs).Resolve(name) == None)
    {
      Others();
      ok := Try();
      if !ok || !fs.Binds() || fs.Resolve(name) != None { return false; }
      var dir := fs.parent.dir;
      ghost var was := fs;
      fs := fs.WithEntry(dir, name, FileEntry(file)).(contents := fs.contents[file := []]);
      assert OnlyLink(fs, dir, name, file);
      RemovalRestores(was, fs, dir, name, FileEntry(file));
    }

    predicate CanExport(encoded: Bytes)
      reads this`fs
    {
      0 < |encoded| <= MAX_AUDIT_ANCHOR_BYTES && fs.parent.BoundTo? && fs.Binds() && fs.Resolve(name) == None
    }

    /** Everything between creation and the decision to commit. */
    method PersistChecked(encoded: Bytes, dir: Dir) returns (ok: bool)
      requires handle == Some(dir) && Bounded()
      modifies this`fs, this`faults, this`inside, this`outside, this`sawBytes, this`sawPath, this`sawParent
      ensures Counts()
      ensures ok ==> Confirmed(dir, encoded)
      ensures Undisturbed() && ok ==> InPlace(fs, dir, name, file, encoded)
      ensures Quiet() && OnlyLink(old(fs), dir, name, file) && ParentIdentity(old(fs), dir) ==> ok
      ensures Undisturbed() && inside == old(inside) ==> fs.dirs == old(fs).dirs && fs.parent == old(fs).parent
      ensures faults <= old(faults) + 1 && (ok ==> faults == old(faults))
    {
      ok := EnsurePathIdentity();
      if !ok { return; }
      ok := Callback(fs.(contents := fs.contents[file := encoded]));
      if !ok { return; }
      ok := CheckAll(encoded, dir);
      if !ok { return; }
      ok := Callback(fs);
      if !ok { return; }
      ok := CheckAll(encoded, dir);
    }

    /** The three inspections made after each callback. */
    method CheckAll(encoded: Bytes, dir: Dir) returns (ok: bool)
      requires handle == Some(dir) && Bounded()
      modifies this`fs, this`faults, this`outside, this`sawBytes, this`sawPath, this`sawParent
      ensures Counts() && inside == old(inside)
      ensures Undisturbed() ==> fs == old(fs)
      ensures ok ==> Confirmed(dir, encoded)
      ensures Undisturbed() && ok ==> InPlace(fs, dir, name, file, encoded)
      ensures Quiet() ==> (ok <==> InPlace(fs, dir, name, file, encoded))
      ensures faults <= old(faults) + 1 && (ok ==> faults == old(faults))
    {
      ok := VerifyBytes(encoded);
      if !ok { return; }
      ok := EnsurePathIdentity();
      if !ok { return; }
      ok := EnsureParentIdentity(dir);
    }
  }
}
