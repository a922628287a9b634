/**
 Installing an extracted bundle over an existing one (cli/src/deploy.rs):
 staging, atomic exchange, fallback through a backup, rollback. Every file
 system call may fail; `Faults` says which ones do in a given run.
 */
module Install {
  import opened Common

  /** The three paths involved: the component directory, the staged component
      directory inside the fresh staging directory, and the fresh backup path. */
  datatype Place = Component | Staged | Backup

  /** A directory's files by relative path. */
  type Tree = map<string, seq<bv8>>

  /** The directories that exist. */
  type Disk = map<Place, Tree>

  datatype Extraction =
    | Unpacked(tree: Option<Tree>)  // None: the archive has no directory for the component
    | UnpackFailed(partial: Option<Tree>)

  datatype Exchange = Exchanged | Unsupported | Refused

  /** `remove_dir_all` either removes everything or stops with something left. */
  datatype Removal = Gone | LeftBehind(tree: Tree)

  /** Outcomes of the calls: a `sees` flag is false when `exists()` cannot tell. */
  datatype Faults = Faults(
    createStaging: bool,
    seesStaged: bool,
    seesComponent: bool,
    moveIn: bool,
    exchange: Exchange,
    moveAside: bool,
    removeBackup: Removal,
    restore: bool,
    seesStaging: bool,
    removeStaging: Removal)

  function Moved(d: Disk, from: Place, to: Place): Disk
    requires from in d
  {
    (d - {from})[to := d[from]]
  }

  function Exchanged2(d: Disk, a: Place, b: Place): Disk
    requires a in d && b in d
  {
    d[a := d[b]][b := d[a]]
  }

  function Cleared(d: Disk, p: Place, r: Removal): Disk {
    if p !in d then d
    else match r
      case Gone => d - {p}
      case LeftBehind(tree) => d[p := tree]
  }

  /** Renaming a directory onto another one works only if that one is empty. */
  predicate CanMoveTo(d: Disk, p: Place) {
    p !in d || d[p] == map[]
  }

  /** How a run ended, and every disk it went through. */
  datatype Run = Run(ok: bool, disk: Disk, trace: seq<Disk>)

  function Replaced(d: Disk, f: Faults): Run
    requires Staged in d && Backup !in d
  {
    if Component !in d || !f.seesComponent then
      if f.moveIn && CanMoveTo(d, Component) then
        var d1 := Moved(d, Staged, Component);
        Run(true, d1, [d1])
      else
        Run(false, d, [])
    else
      match f.exchange
      case Refused => Run(false, d, [])
      case Exchanged =>
        var d1 := Exchanged2(d, Staged, Component);
        Run(true, d1, [d1])
      case Unsupported =>
        if !f.moveAside then Run(false, d, [])
        else
          var d1 := Moved(d, Component, Backup);
          if f.moveIn then
            var d2 := Moved(d1, Staged, Component);
            var d3 := Cleared(d2, Backup, f.removeBackup);
            Run(true, d3, [d1, d2, d3])
          else if f.restore then
            var d2 := Moved(d1, Backup, Component);
            Run(false, d2, [d1, d2])
          else
            Run(false, d1, [d1])
  }

  function Extracted(d: Disk, e: Extraction): Disk {
    var tree := if e.Unpacked? then e.tree else e.partial;
    if tree.Some? then d[Staged := tree.value] else d
  }

  function Installed(d: Disk, e: Extraction, f: Faults): Run
    requires Staged !in d && Backup !in d
  {
    if !f.createStaging then Run(false, d, [])
    else
      var d1 := Extracted(d, e);
      var r := if e.Unpacked? && Staged in d1 && f.seesStaged then Replaced(d1, f) else Run(false, d1, []);
      var last := if f.seesStaging then Cleared(r.disk, Staged, f.removeStaging) else r.disk;
      Run(r.ok, last, [d1] + r.trace + [last])
  }

  /** The version root on disk; `trace` records every state a crash could leave behind. */
  class VersionRoot {
    var disk: Disk
    ghost var trace: seq<Disk>

    constructor (disk: Disk)
      ensures this.disk == disk && trace == []
    {
      this.disk := disk;
      trace := [];
    }

    method Rename(from: Place, to: Place)
      requires from in disk
      modifies this
      ensures disk == Moved(old(disk), from, to) && trace == old(trace) + [disk]
    {
      disk := Moved(disk, from, to);
      trace := trace + [disk];
    }

    method RemoveDirAll(p: Place, r: Removal)
      modifies this
      ensures disk == Cleared(old(disk), p, r) && trace == old(trace) + [disk]
    {
      disk := Cleared(disk, p, r);
      trace := trace + [disk];
    }

    method ExchangeComponentDirs(outcome: Exchange) returns (result: Result<bool, ()>)
      requires Staged in disk && Component in disk
      modifies this
      ensures result == match outcome case Exchanged => Ok(true) case Unsupported => Ok(false) case Refused => Err(())
      ensures disk == if outcome.Exchanged? then Exchanged2(old(disk), Staged, Component) else old(disk)
      ensures trace == if outcome.Exchanged? then old(trace) + [disk] else old(trace)
    {
      match outcome
      case Exchanged =>
        disk := Exchanged2(disk, Staged, Component);
        trace := trace + [disk];
        return Ok(true);
      case Unsupported => return Ok(false);
      case Refused => return Err(());
    }

    method ReplaceComponentDir(f: Faults) returns (ok: bool)
      requires Staged in disk && Backup !in disk
      modifies this
      ensures var r := Replaced(old(disk), f);
        ok == r.ok && disk == r.disk && trace == old(trace) + r.trace
    {
      if Component !in disk || !f.seesComponent {
        if !f.moveIn || !CanMoveTo(disk, Component) {
          return false;
        }
        Rename(Staged, Component);
        return true;
      }
      var exchanged := ExchangeComponentDirs(f.exchange);
      if exchanged.Err? {
        return false;
      }
      if exchanged.value {
        return true;
      }
      if !f.moveAside {
        return false;
      }
      Rename(Component, Backup);
      if f.moveIn {
        Rename(Staged, Component);
        RemoveDirAll(Backup, f.removeBackup);
        return true;
      }
      if f.restore {
        Rename(Backup, Component);
      }
      return false;
    }

    method InstallExtractedComponent(e: Extraction, f: Faults) returns (ok: bool)
      requires Staged !in disk && Backup !in disk
      modifies this
      ensures var r := Installed(old(disk), e, f);
        ok == r.ok && disk == r.disk && trace == old(trace) + r.trace
    {
      hide Replaced, Cleared;
      if !f.createStaging {
        return false;
      }
      disk := Extracted(disk, e);
      trace := trace + [disk];
      ok := false;
      if e.Unpacked? && Staged in disk && f.seesStaged {
        ok := ReplaceComponentDir(f);
      }
      if f.seesStaging {
        RemoveDirAll(Staged, f.removeStaging);
      } else {
        trace := trace + [disk];
      }
    }
  }

  // --------------------------------------------------------- failure safety

  /** The component directory is complete, or absent while the old bundle waits at the backup. */
  predicate Safe(d: Disk, old_: Disk, new_: Tree) {
    && (Component in d ==> d[Component] == new_ || (Component in old_ && d[Component] == old_[Component]))
    && (Component in old_ && Component !in d ==> Backup in d && d[Backup] == old_[Component])
  }

  /** No call pattern ever exposes a partial bundle or loses both copies, not even in between. */
  lemma EveryStepIsSafe(d: Disk, e: Extraction, f: Faults, new_: Tree)
    requires Staged !in d && Backup !in d
    requires e.Unpacked? ==> e.tree == None || e.tree == Some(new_)
    ensures forall s :: s in Installed(d, e, f).trace ==> Safe(s, d, new_)
  {
    hide Replaced;
    var d1 := Extracted(d, e);
    if f.createStaging && e.Unpacked? && Staged in d1 && f.seesStaged {
      ReplacingIsSafe(d, d1, f, new_);
    }
  }

  lemma ReplacingIsSafe(d: Disk, d1: Disk, f: Faults, new_: Tree)
    requires Staged !in d && Backup !in d && d1 == d[Staged := new_]
    ensures forall s :: s in Replaced(d1, f).trace ==> Safe(s, d, new_)
    ensures var r := Replaced(d1, f).disk; Safe(r, d, new_) && Safe(Cleared(r, Staged, f.removeStaging), d, new_)
  {
  }

  /** Success means the new bundle is in place; failure means the old one is, or waits at the
      backup path; a failed first install leaves no component directory. */
  lemma InstallIsFailureSafe(d: Disk, e: Extraction, f: Faults)
    requires Staged !in d && Backup !in d
    ensures var r := Installed(d, e, f);
      && (r.ok ==> e.Unpacked? && e.tree.Some? && Component in r.disk && r.disk[Component] == e.tree.value)
      && (!r.ok && Component in d && Component in r.disk ==> r.disk[Component] == d[Component])
      && (!r.ok && Component in d && Component !in r.disk ==> Backup in r.disk && r.disk[Backup] == d[Component])
      && (!r.ok && Component !in d ==> Component !in r.disk)
  {
  }

  /** The new bundle was unpacked over a visible old one, the kernel could not exchange
      directories, and the old one was moved aside. */
  predicate FellBack(e: Extraction, f: Faults) {
    f.createStaging && e.Unpacked? && e.tree.Some? && f.seesStaged &&
        f.seesComponent && f.exchange.Unsupported? && f.moveAside
  }

  /** The component path is ever empty exactly when the fallback without exchange is taken, and
      stays empty exactly when then both moving the new bundle in and moving the old one back fail. */
  lemma WindowOnlyWithoutExchange(d: Disk, e: Extraction, f: Faults)
    requires Staged !in d && Backup !in d && Component in d
    ensures var r := Installed(d, e, f);
      && ((exists s :: s in r.trace && Component !in s) <==> FellBack(e, f))
      && (Component !in r.disk <==> FellBack(e, f) && !f.moveIn && !f.restore)
  {
    var d1, r := Extracted(d, e), Installed(d, e, f);
    if FellBack(e, f) {
      var moved := Moved(d1, Component, Backup);
      assert Replaced(d1, f).trace[0] == moved;
      assert r.trace[1] == moved && Component !in moved;
    }
  }

  // ------------------------------------------------------- what is cleaned up

  /** The staged directory is still there after the run exactly when the staging directory is not
      seen, or not removed whole, while something is staged: the new bundle if it was not put in
      place, or the old one after an exchange. */
  predicate StillStaged(d: Disk, e: Extraction, f: Faults) {
    var staged := f.createStaging && (if e.Unpacked? then e.tree.Some? else e.partial.Some?);
    var tried := staged && e.Unpacked? && f.seesStaged;
    var seen := Component in d && f.seesComponent;
    staged && !(tried && !seen && f.moveIn && CanMoveTo(d, Component)) &&
    !(tried && seen && f.exchange.Unsupported? && f.moveAside && f.moveIn)
  }

  /** The staging directory is left behind exactly when it still holds something and its removal
      is not tried or not finished; the backup exactly when it was made and then neither moved
      back nor removed. */
  lemma LeftBehindExactly(d: Disk, e: Extraction, f: Faults)
    requires Staged !in d && Backup !in d
    ensures var r := Installed(d, e, f);
      && (Staged in r.disk <==> StillStaged(d, e, f) && !(f.seesStaging && f.removeStaging.Gone?))
      && (Backup in r.disk <==>
            Component in d && FellBack(e, f) && if f.moveIn then f.removeBackup.LeftBehind? else !f.restore)
  {
  }

  /** The answer is success exactly when the new bundle was moved or exchanged into place. */
  lemma SucceedsExactly(d: Disk, e: Extraction, f: Faults)
    requires Staged !in d && Backup !in d
    ensures Installed(d, e, f).ok <==>
              && f.createStaging && e.Unpacked? && e.tree.Some? && f.seesStaged
              && if Component in d && f.seesComponent
                 then f.exchange.Exchanged? || (f.exchange.Unsupported? && f.moveAside && f.moveIn)
                 else f.moveIn && CanMoveTo(d, Component)
  {
  }

  // ------------------------------------------------- many installs in a row

  datatype Attempt = Attempt(extraction: Extraction, faults: Faults)

  /** The component directory as the next attempt finds it (its staging and backup paths are
      new) and the backups that earlier attempts could not put back or remove. */
  datatype Root = Root(disk: Disk, parked: seq<Tree>)

  function Attempted(r: Root, a: Attempt): Run
  {
    Installed(map p | p in r.disk && p == Component :: r.disk[p], a.extraction, a.faults)
  }

  function InstallAll(initial: Disk, attempts: seq<Attempt>): Root {
    if attempts == [] then Root(initial, [])
    else
      var before := InstallAll(initial, attempts[..|attempts| - 1]);
      var r := Attempted(before, attempts[|attempts| - 1]);
      Root(r.disk, before.parked + if Backup in r.disk then [r.disk[Backup]] else [])
  }

  /** The bundle of the last attempt that reported success, or else the initial one. */
  function LastGood(initial: Disk, attempts: seq<Attempt>): Option<Tree> {
    if attempts == [] then if Component in initial then Some(initial[Component]) else None
    else
      var a := attempts[|attempts| - 1];
      if Attempted(InstallAll(initial, attempts[..|attempts| - 1]), a).ok then
        if a.extraction.Unpacked? then a.extraction.tree else None
      else
        LastGood(initial, attempts[..|attempts| - 1])
  }

  /** However many installs are tried and whichever calls fail, the last good bundle is never
      lost, and nothing else is ever found in its place. */
  lemma {:induction false} LastGoodBundleSurvives(initial: Disk, attempts: seq<Attempt>)
    ensures var r := InstallAll(initial, attempts);
      match LastGood(initial, attempts)
      case None => Component !in r.disk
      case Some(tree) => if Component in r.disk then r.disk[Component] == tree else tree in r.parked
  {
    if attempts != [] {
      var before, a := attempts[..|attempts| - 1], attempts[|attempts| - 1];
      LastGoodBundleSurvives(initial, before);
      var root := InstallAll(initial, before);
      var d := map p | p in root.disk && p == Component :: root.disk[p];
      InstallIsFailureSafe(d, a.extraction, a.faults);
    }
  }

  // ------------------------------------------------------- local bundle files

  /** The calls `install_bundles_from_dir` makes before installing a component. */
  datatype LocalFaults = LocalFaults(
    bundlePresent: bool, seesOld: bool, force: bool, removeOld: Removal, read: bool, checksumOk: bool)

  function InstalledFromDir(d: Disk, e: Extraction, lf: LocalFaults, f: Faults): Run
    requires Staged !in d && Backup !in d
  {
    if !lf.bundlePresent then Run(false, d, [])
    else if Component in d && lf.seesOld && !lf.force then Run(true, d, [])
    else
      var d1 := if lf.seesOld then Cleared(d, Component, lf.removeOld) else d;
      if lf.seesOld && Component in d1 then Run(false, d1, [d1])
      else if !lf.read || !lf.checksumOk then Run(false, d1, [d1])
      else
        var r := Installed(d1, e, f);
        Run(r.ok, r.disk, [d1] + r.trace)
  }

  predicate Survives(tree: Tree, d: Disk) {
    (Component in d && d[Component] == tree) || (Backup in d && d[Backup] == tree)
  }

  /** `--force` deletes before it checks: a failing local install keeps the old bundle exactly
      when it failed before, or at, that deletion. */
  lemma LocalInstallKeepsOldBundle(d: Disk, e: Extraction, lf: LocalFaults, f: Faults)
    requires Staged !in d && Backup !in d && Component in d
    requires !InstalledFromDir(d, e, lf, f).ok
    ensures Survives(d[Component], InstalledFromDir(d, e, lf, f).disk) <==>
              !lf.bundlePresent || !lf.seesOld || lf.removeOld == LeftBehind(d[Component])
  {
    if lf.bundlePresent && !lf.seesOld {
      InstallIsFailureSafe(d, e, f);
    } else if lf.bundlePresent && lf.removeOld.Gone? {
      InstallIsFailureSafe(Cleared(d, Component, lf.removeOld), e, f);
    }
  }

  /** A corrupt bundle file and `--force` together lose the installed bundle. */
  lemma ForceLosesBundle(d: Disk, e: Extraction, f: Faults)
    requires Staged !in d && Backup !in d && Component in d
    ensures var r := InstalledFromDir(d, e, LocalFaults(true, true, true, Gone, true, false), f);
      !r.ok && !Survives(d[Component], r.disk)
  {
  }

  // ------------------------------------------------ a command for several components

  /** One component of the command, with the disk it finds. */
  datatype Job = Job(disk: Disk, extraction: Extraction, local: LocalFaults, faults: Faults)

  predicate Fresh(jobs: seq<Job>) {
    forall j :: j in jobs ==> Staged !in j.disk && Backup !in j.disk
  }

  function JobRun(j: Job): Run
    requires Staged !in j.disk && Backup !in j.disk
  {
    InstalledFromDir(j.disk, j.extraction, j.local, j.faults)
  }

  /** The loop over the components: whether it ends well, and their disks afterwards. */
  method InstallBundlesFromDir(jobs: seq<Job>) returns (ok: bool, disks: seq<Disk>)
    requires Fresh(jobs)
    ensures |disks| == |jobs|
    ensures ok <==> forall k :: 0 <= k < |jobs| ==> JobRun(jobs[k]).ok
    ensures forall k :: 0 <= k < |jobs| ==>
              disks[k] == if Reached(jobs, k) then JobRun(jobs[k]).disk else jobs[k].disk
  {
    hide InstalledFromDir;
    disks := seq(|jobs|, k requires 0 <= k < |jobs| => jobs[k].disk);
    for i := 0 to |jobs|
      invariant |disks| == |jobs|
      invariant forall k :: 0 <= k < i ==> JobRun(jobs[k]).ok
      invariant forall k :: 0 <= k < |jobs| ==> disks[k] == if k < i then JobRun(jobs[k]).disk else jobs[k].disk
    {
      var r := JobRun(jobs[i]);
      disks := disks[i := r.disk];
      if !r.ok {
        return false, disks;
      }
    }
    ok := true;
  }

  /** Every component before this one was dealt with. */
  predicate Reached(jobs: seq<Job>, k: nat)
    requires Fresh(jobs) && k <= |jobs|
  {
    forall i :: 0 <= i < k ==> JobRun(jobs[i]).ok
  }

  /** After the command the component has neither its old bundle nor a new one. */
  predicate Lost(jobs: seq<Job>, k: nat)
    requires Fresh(jobs) && k < |jobs| && Component in jobs[k].disk
  {
    var after := if Reached(jobs, k) then JobRun(jobs[k]).disk else jobs[k].disk;
    && !Survives(jobs[k].disk[Component], after)
    && !(JobRun(jobs[k]).ok && Reached(jobs, k))
  }

  /** Of all components of a command, the only one that can be left without a bundle is the one
      at which it stops, and it is exactly when its old directory was deleted under `--force`. */
  lemma OnlyTheFailingComponentIsLost(jobs: seq<Job>, k: nat)
    requires Fresh(jobs) && k < |jobs| && Component in jobs[k].disk
    ensures var j := jobs[k];
      Lost(jobs, k) <==>
        && Reached(jobs, k) && !JobRun(j).ok
        && j.local.bundlePresent && j.local.seesOld && j.local.force
        && j.local.removeOld != LeftBehind(j.disk[Component])
  {
    hide InstalledFromDir;
    var j := jobs[k];
    if Reached(jobs, k) && !JobRun(j).ok {
      LocalInstallKeepsOldBundle(j.disk, j.extraction, j.local, j.faults);
      SkippedIsNoFailure(j);
    }
  }

  lemma SkippedIsNoFailure(j: Job)
    requires Staged !in j.disk && Backup !in j.disk && Component in j.disk
    ensures j.local.bundlePresent && j.local.seesOld && !j.local.force ==> JobRun(j).ok
  {
  }

  /** A component the command dealt with has the new bundle, or kept the old one because it was
      there and nothing was forced. */
  lemma DealtWithIsInPlace(jobs: seq<Job>, k: nat)
    requires Fresh(jobs) && k < |jobs| && Reached(jobs, k) && JobRun(jobs[k]).ok
    ensures var j, after := jobs[k], JobRun(jobs[k]).disk;
      if Component in j.disk && j.local.seesOld && !j.local.force then after == j.disk
      else j.extraction.Unpacked? && j.extraction.tree.Some? &&
           Component in after && after[Component] == j.extraction.tree.value
  {
    var j := jobs[k];
    var d1 := if j.local.seesOld then Cleared(j.disk, Component, j.local.removeOld) else j.disk;
    if !(Component in j.disk && j.local.seesOld && !j.local.force) {
      InstallIsFailureSafe(d1, j.extraction, j.faults);
    }
  }
}
