/** The agent hot-swap: a file system in which every operation may fail, and a rollback. */
module Swap {

  /** A file; `inode` is its identity. */
  datatype File = File(inode: nat, size: int, executable: bool)

  type FileSystem = map<string, File>

  datatype Paths = Paths(staged: string, install: string, backup: string)

  /** Which of the calls performSwap makes fail, beyond those that must. */
  datatype Faults = Faults(
    stat: bool, fsyncStaged: bool, fsyncDir: bool, backup: bool, install: bool,
    chmod: bool, exec: bool, rollback: bool)

  /** The stage that reported an error, or Replaced when exec did not return. */
  datatype Outcome = StatFailed | SizeMismatch | FsyncFailed | InstallFailed | ChmodFailed | ExecFailed | Replaced

  predicate Distinct(p: Paths)
  {
    p.staged != p.install && p.install != p.backup && p.backup != p.staged
  }

  // ----- file-system calls -----

  predicate RenameWorks(fs: FileSystem, src: string, fault: bool)
  {
    src in fs && !fault
  }

  /** rename(2): atomic, replaces the target, and on failure changes nothing. */
  function Rename(fs: FileSystem, src: string, dst: string, fault: bool): FileSystem
    requires src != dst
  {
    if RenameWorks(fs, src, fault) then (fs - {src})[dst := fs[src]] else fs
  }

  function ChmodExec(fs: FileSystem, path: string): FileSystem
    requires path in fs
  {
    fs[path := fs[path].(executable := true)]
  }

  // ----- what performSwap does to the file system -----

  /** The first call to fail decides what performSwap reports. */
  function Verdict(fs: FileSystem, p: Paths, expected: int, f: Faults): Outcome
  {
    if f.stat || p.staged !in fs then StatFailed
    else if fs[p.staged].size != expected then SizeMismatch
    else if f.fsyncStaged || f.fsyncDir then FsyncFailed
    else if f.install then InstallFailed
    else if f.chmod then ChmodFailed
    else if f.exec then ExecFailed
    else Replaced
  }

  /** The staged file is there, and of the size the host announced. */
  predicate Intact(fs: FileSystem, p: Paths, expected: int, f: Faults)
  {
    !f.stat && p.staged in fs && fs[p.staged].size == expected
  }

  predicate Durable(fs: FileSystem, p: Paths, expected: int, f: Faults)
  {
    Intact(fs, p, expected, f) && !f.fsyncStaged && !f.fsyncDir
  }

  predicate Touched(o: Outcome)
  {
    o == InstallFailed || o == ChmodFailed || o == ExecFailed || o == Replaced
  }

  // ----- performSwap -----

  class Machine {
    var fs: FileSystem
    /** What sat at the install path each time exec was attempted. */
    ghost var execd: seq<File>

    method RenameAtomic(src: string, dst: string, fault: bool) returns (ok: bool)
      requires src != dst
      modifies this`fs
      ensures fs == Rename(old(fs), src, dst, fault) && ok == RenameWorks(old(fs), src, fault)
    {
      ok := src in fs && !fault;
      if ok {
        fs := (fs - {src})[dst := fs[src]];
      }
    }

    method PerformSwap(p: Paths, expected: int, f: Faults) returns (r: Outcome)
      requires Distinct(p)
      modifies this
      ensures r == Verdict(old(fs), p, expected, f)
      ensures (r == StatFailed <==> f.stat || p.staged !in old(fs))
           && (r == SizeMismatch <==> !f.stat && p.staged in old(fs) && old(fs)[p.staged].size != expected)
           && (r == FsyncFailed <==> Intact(old(fs), p, expected, f) && (f.fsyncStaged || f.fsyncDir))
      ensures (r == InstallFailed <==> Durable(old(fs), p, expected, f) && f.install)
           && (r == ChmodFailed <==> Durable(old(fs), p, expected, f) && !f.install && f.chmod)
           && (r == ExecFailed <==> Durable(old(fs), p, expected, f) && !f.install && !f.chmod && f.exec)
           && (r == Replaced <==> Durable(old(fs), p, expected, f) && !f.install && !f.chmod && !f.exec)
      // exec only ever sees the staged binary, of the expected size, installed and executable
      ensures execd == if Durable(old(fs), p, expected, f) && !f.install && !f.chmod
                       then old(execd) + [File(old(fs)[p.staged].inode, expected, true)] else old(execd)
      ensures r == Replaced ==> p.install in fs && fs[p.install] == old(fs)[p.staged].(executable := true)
      ensures !Touched(r) ==> fs == old(fs)
      ensures Touched(r) && r != Replaced ==> fs == RolledBack(old(fs), p, f, r)
    {
      if f.stat || p.staged !in fs {
        return StatFailed;
      }
      var size := fs[p.staged].size;
      if size != expected {
        return SizeMismatch;
      }
      if f.fsyncStaged || f.fsyncDir {
        return FsyncFailed;
      }
      var _ := RenameAtomic(p.install, p.backup, f.backup);
      var ok := RenameAtomic(p.staged, p.install, f.install);
      if !ok {
        var _ := RenameAtomic(p.backup, p.install, f.rollback);
        return InstallFailed;
      }
      if f.chmod {
        var _ := RenameAtomic(p.backup, p.install, f.rollback);
        return ChmodFailed;
      }
      fs := fs[p.install := fs[p.install].(executable := true)];
      execd := execd + [fs[p.install]];
      if f.exec {
        var _ := RenameAtomic(p.backup, p.install, f.rollback);
        return ExecFailed;
      }
      return Replaced;
    }
  }

  /** The file system after a failure past the backup and the rollback that follows it. */
  function RolledBack(fs: FileSystem, p: Paths, f: Faults, r: Outcome): FileSystem
    requires Distinct(p) && p.staged in fs
  {
    var saved := Rename(fs, p.install, p.backup, f.backup);
    var installed := if r == InstallFailed then saved else Rename(saved, p.staged, p.install, false);
    var ready := if r == ExecFailed then ChmodExec(installed, p.install) else installed;
    Rename(ready, p.backup, p.install, f.rollback)
  }

  // ----- when the rollback keeps the old binary -----

  /** Same file at the install path, or still none. */
  predicate SameInstall(fs: FileSystem, fs': FileSystem, p: Paths)
  {
    if p.install in fs then p.install in fs' && fs'[p.install] == fs[p.install] else p.install !in fs'
  }

  /** No two of the three paths hold the same file. */
  predicate NoAliases(fs: FileSystem, p: Paths)
  {
    forall a, b | a in {p.staged, p.install, p.backup} && b in {p.staged, p.install, p.backup} && a != b
      && a in fs && b in fs :: fs[a].inode != fs[b].inode
  }

  /**
    Provided the backup rename succeeded and the rollback rename succeeds, every error return
    past the backup leaves the old binary at the install path.
   */
  lemma RollbackRestores(fs: FileSystem, p: Paths, f: Faults, r: Outcome)
    requires Distinct(p) && p.staged in fs && Touched(r) && r != Replaced
    requires RenameWorks(fs, p.install, f.backup) && !f.rollback
    ensures SameInstall(fs, RolledBack(fs, p, f, r), p)
  {
  }

  /**
    Exactly when an error return past the backup leaves the install path as it was: the backup
    and the rollback both worked; or the backup did not, the install failed too, and there was
    no stale backup to restore or the rollback failed.
   */
  lemma RollbackRestoresIff(fs: FileSystem, p: Paths, expected: int, f: Faults)
    requires Distinct(p) && NoAliases(fs, p) && Touched(Verdict(fs, p, expected, f))
             && Verdict(fs, p, expected, f) != Replaced
    ensures SameInstall(fs, RolledBack(fs, p, f, Verdict(fs, p, expected, f)), p)
       <==> if RenameWorks(fs, p.install, f.backup) then !f.rollback else f.install && (f.rollback || p.backup !in fs)
  {
  }

  /** Without the backup, a stale `.prev` from an earlier upgrade becomes the installed agent. */
  lemma StaleBackupRestored(fs: FileSystem, p: Paths, f: Faults, r: Outcome)
    requires Distinct(p) && p.staged in fs && Touched(r) && r != Replaced
    requires !RenameWorks(fs, p.install, f.backup) && p.backup in fs && !f.rollback
    ensures p.install in RolledBack(fs, p, f, r) && RolledBack(fs, p, f, r)[p.install] == fs[p.backup]
  {
  }
}
