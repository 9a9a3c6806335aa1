/**
 * Steps 2-4 of `main` in update_instagram_data.py: check that the chosen dated folder
 * holds both exports, then rotate the three slots of the reports directory
 * (`old_followers.json`, `followers_1.json`, `following.json`) by delete, rename and
 * copy, stopping at the first step that fails and keeping every step already done.
 */
module Rotation {
  import opened Wrappers
  import opened DatedFolder

  type Content = string

  /** A file of the reports directory, or a file inside one of its dated sub-folders. */
  datatype Path = Root(file: string) | InFolder(folder: string, file: string)

  const FollowersFile: string := "followers_1.json"
  const FollowingFile: string := "following.json"

  const OldFollowers: Path := Root("old_followers.json")
  const CurrentFollowers: Path := Root(FollowersFile)
  const CurrentFollowing: Path := Root(FollowingFile)

  predicate IsSlot(p: Path) {
    p == OldFollowers || p == CurrentFollowers || p == CurrentFollowing
  }

  /** Which filesystem calls raise `OSError` if they are reached. */
  datatype Faults = Faults(deleteOld: bool, deleteFollowing: bool, rename: bool, copyFollowers: bool, copyFollowing: bool)

  /**
   * Why a run stopped; each ends `main` with `sys.exit(1)`. The first two are the
   * failures of `find_latest_dated_folder`, which exits the program itself; they are
   * the `Selection` outcomes `ReportsDirNotFound` and `NoDatedFolder` seen as exit
   * reasons of the whole run.
   */
  datatype UpdateError =
    | ReportsDirMissing
    | NoSnapshotFound
    | SourceMissing(path: Path)
    | DeleteFailed(path: Path)
    | RenameFailed(src: Path, dst: Path)
    | CopyFailed(src: Path, dst: Path)

  /** The files below the reports directory, changed in place by the rotation. */
  class FileSystem {
    var files: map<Path, Content>

    constructor (initial: map<Path, Content>)
      ensures files == initial
    {
      files := initial;
    }

    /** `os.path.exists`. */
    predicate Exists(p: Path)
      reads this
    {
      p in files
    }

    /** `os.remove`: fails when the file is absent or the call faults. */
    method Remove(p: Path, fault: bool) returns (ok: bool)
      modifies this
      ensures ok == (p in old(files) && !fault)
      ensures files == if ok then old(files) - {p} else old(files)
    {
      ok := p in files && !fault;
      if ok {
        files := files - {p};
      }
    }

    /** `os.rename`: the content moves to `dst` and `src` disappears. */
    method Rename(src: Path, dst: Path, fault: bool) returns (ok: bool)
      modifies this
      ensures ok == (src in old(files) && !fault)
      ensures files == if ok then (old(files) - {src})[dst := old(files)[src]] else old(files)
    {
      ok := src in files && !fault;
      if ok {
        files := (files - {src})[dst := files[src]];
      }
    }

    /** `shutil.copy2`: `dst` gets the content of `src`, which stays. */
    method Copy2(src: Path, dst: Path, fault: bool) returns (ok: bool)
      modifies this
      ensures ok == (src in old(files) && !fault)
      ensures files == if ok then old(files)[dst := old(files)[src]] else old(files)
    {
      ok := src in files && !fault;
      if ok {
        files := files[dst := files[src]];
      }
    }
  }

  // ---- The rotation as a function of the starting files ----

  function SourceFollowers(folder: string): Path {
    InFolder(folder, FollowersFile)
  }

  function SourceFollowing(folder: string): Path {
    InFolder(folder, FollowingFile)
  }

  /**
   * Step `k` of the rotation when it succeeds: 0 deletes `old_followers.json`, 1 deletes
   * `following.json`, 2 renames `followers_1.json` to `old_followers.json`, 3 and 4 copy
   * the two exports in. A step whose file is absent changes nothing.
   */
  function Step(fs: map<Path, Content>, folder: string, k: nat): map<Path, Content> {
    if k == 0 then fs - {OldFollowers}
    else if k == 1 then fs - {CurrentFollowing}
    else if k == 2 then
      (if CurrentFollowers in fs then (fs - {CurrentFollowers})[OldFollowers := fs[CurrentFollowers]] else fs)
    else if k == 3 then
      (if SourceFollowers(folder) in fs then fs[CurrentFollowers := fs[SourceFollowers(folder)]] else fs)
    else if k == 4 then
      (if SourceFollowing(folder) in fs then fs[CurrentFollowing := fs[SourceFollowing(folder)]] else fs)
    else fs
  }

  /** The files once the first `n` steps have been applied. */
  function StepsApplied(fs: map<Path, Content>, folder: string, n: nat): map<Path, Content>
    decreases n
  {
    if n == 0 then fs else Step(StepsApplied(fs, folder, n - 1), folder, n - 1)
  }

  /** Whether step `k` calls the filesystem at all from `fs` (the `os.path.exists` guards). */
  predicate Attempted(fs: map<Path, Content>, k: nat) {
    if k == 0 then OldFollowers in fs
    else if k == 1 then CurrentFollowing in fs
    else if k == 2 then CurrentFollowers in fs
    else k <= 4
  }

  predicate Faulty(faults: Faults, k: nat) {
    if k == 0 then faults.deleteOld
    else if k == 1 then faults.deleteFollowing
    else if k == 2 then faults.rename
    else if k == 3 then faults.copyFollowers
    else k == 4 && faults.copyFollowing
  }

  function StepError(folder: string, k: nat): UpdateError {
    if k == 0 then DeleteFailed(OldFollowers)
    else if k == 1 then DeleteFailed(CurrentFollowing)
    else if k == 2 then RenameFailed(CurrentFollowers, OldFollowers)
    else if k == 3 then CopyFailed(SourceFollowers(folder), CurrentFollowers)
    else CopyFailed(SourceFollowing(folder), CurrentFollowing)
  }

  /** The first step, from `k` on, that is reached and faults. */
  function FirstFailure(fs: map<Path, Content>, folder: string, faults: Faults, k: nat): (r: Option<nat>)
    ensures r.Some? ==> k <= r.value < 5
    decreases 5 - k
  {
    if k >= 5 then None
    else if Attempted(StepsApplied(fs, folder, k), k) && Faulty(faults, k) then Some(k)
    else FirstFailure(fs, folder, faults, k + 1)
  }

  /** The files and the error, if any, after rotating from `fs` with the exports of `folder`. */
  function RotationOutcome(fs: map<Path, Content>, folder: string, faults: Faults): (r: (map<Path, Content>, Option<UpdateError>))
    ensures r.1.Some? && r.1.value.SourceMissing? ==> r.0 == fs
    ensures exists k ::
      && 0 <= k <= 5 && r.0 == StepsApplied(fs, folder, k) && (r.1.None? <==> k == 5)
      && (r.1.Some? && !r.1.value.SourceMissing? ==> r.1.value == StepError(folder, k))
  {
    if SourceFollowers(folder) !in fs then
      assert StepsApplied(fs, folder, 0) == fs;
      (fs, Some(SourceMissing(SourceFollowers(folder))))
    else if SourceFollowing(folder) !in fs then
      assert StepsApplied(fs, folder, 0) == fs;
      (fs, Some(SourceMissing(SourceFollowing(folder))))
    else match FirstFailure(fs, folder, faults, 0)
      case None => (StepsApplied(fs, folder, 5), None)
      case Some(k) => (StepsApplied(fs, folder, k), Some(StepError(folder, k)))
  }

  /** The slots after the deletes and the rename, before anything is copied in. */
  function Cleared(fs: map<Path, Content>): map<Path, Content> {
    if CurrentFollowers in fs then (fs - {OldFollowers, CurrentFollowing, CurrentFollowers})[OldFollowers := fs[CurrentFollowers]]
    else fs - {OldFollowers, CurrentFollowing}
  }

  lemma StepsUnfolded(fs: map<Path, Content>, folder: string)
    requires SourceFollowers(folder) in fs && SourceFollowing(folder) in fs
    ensures StepsApplied(fs, folder, 1) == fs - {OldFollowers}
    ensures StepsApplied(fs, folder, 2) == fs - {OldFollowers, CurrentFollowing}
    ensures StepsApplied(fs, folder, 3) == Cleared(fs)
    ensures StepsApplied(fs, folder, 4) == Cleared(fs)[CurrentFollowers := fs[SourceFollowers(folder)]]
    ensures StepsApplied(fs, folder, 5) == Cleared(fs)[CurrentFollowers := fs[SourceFollowers(folder)]][CurrentFollowing := fs[SourceFollowing(folder)]]
  {
    assert StepsApplied(fs, folder, 2) == fs - {OldFollowers} - {CurrentFollowing};
  }

  /**
   * A run succeeds exactly when both exports exist and none of the calls it reaches
   * faults; the delete and rename calls are reached only for slots that exist.
   */
  lemma {:induction false} RotationSucceedsIff(fs: map<Path, Content>, folder: string, faults: Faults)
    ensures RotationOutcome(fs, folder, faults).1.None? <==>
      && SourceFollowers(folder) in fs && SourceFollowing(folder) in fs
      && !(OldFollowers in fs && faults.deleteOld)
      && !(CurrentFollowing in fs && faults.deleteFollowing)
      && !(CurrentFollowers in fs && faults.rename)
      && !faults.copyFollowers && !faults.copyFollowing
  {
    if SourceFollowers(folder) in fs && SourceFollowing(folder) in fs {
      StepsUnfolded(fs, folder);
      assert Attempted(StepsApplied(fs, folder, 1), 1) <==> CurrentFollowing in fs;
      assert Attempted(StepsApplied(fs, folder, 2), 2) <==> CurrentFollowers in fs;
    }
  }

  /**
   * Which error a run reports: the first missing export, otherwise the first call that is
   * reached and faults, in the order delete, delete, rename, copy, copy.
   */
  lemma {:induction false} FaultPicksTheStep(fs: map<Path, Content>, folder: string, faults: Faults)
    ensures var err := RotationOutcome(fs, folder, faults).1;
      var f0 := OldFollowers in fs && faults.deleteOld;
      var f1 := CurrentFollowing in fs && faults.deleteFollowing;
      var f2 := CurrentFollowers in fs && faults.rename;
      && (SourceFollowers(folder) !in fs ==> err == Some(SourceMissing(SourceFollowers(folder))))
      && (SourceFollowers(folder) in fs && SourceFollowing(folder) !in fs ==> err == Some(SourceMissing(SourceFollowing(folder))))
      && (SourceFollowers(folder) in fs && SourceFollowing(folder) in fs ==>
        && (f0 ==> err == Some(DeleteFailed(OldFollowers)))
        && (!f0 && f1 ==> err == Some(DeleteFailed(CurrentFollowing)))
        && (!f0 && !f1 && f2 ==> err == Some(RenameFailed(CurrentFollowers, OldFollowers)))
        && (!f0 && !f1 && !f2 && faults.copyFollowers ==> err == Some(CopyFailed(SourceFollowers(folder), CurrentFollowers)))
        && (!f0 && !f1 && !f2 && !faults.copyFollowers && faults.copyFollowing ==>
              err == Some(CopyFailed(SourceFollowing(folder), CurrentFollowing))))
  {
    if SourceFollowers(folder) in fs && SourceFollowing(folder) in fs {
      StepsUnfolded(fs, folder);
      assert Attempted(StepsApplied(fs, folder, 1), 1) <==> CurrentFollowing in fs;
      assert Attempted(StepsApplied(fs, folder, 2), 2) <==> CurrentFollowers in fs;
    }
  }

  /**
   * After a successful run `followers_1.json` and `following.json` hold the chosen
   * folder's exports, `old_followers.json` holds the previous `followers_1.json` if there
   * was one and is absent otherwise, and every other path is as it was.
   */
  lemma {:induction false} RotationSuccess(fs: map<Path, Content>, folder: string, faults: Faults)
    requires RotationOutcome(fs, folder, faults).1.None?
    ensures var after := RotationOutcome(fs, folder, faults).0;
      && SourceFollowers(folder) in fs && SourceFollowing(folder) in fs
      && CurrentFollowers in after && after[CurrentFollowers] == fs[SourceFollowers(folder)]
      && CurrentFollowing in after && after[CurrentFollowing] == fs[SourceFollowing(folder)]
      && (CurrentFollowers in fs ==> OldFollowers in after && after[OldFollowers] == fs[CurrentFollowers])
      && (CurrentFollowers !in fs ==> OldFollowers !in after)
      && (forall p :: !IsSlot(p) ==> (p in after <==> p in fs) && (p in fs ==> after[p] == fs[p]))
  {
    StepsUnfolded(fs, folder);
  }

  /**
   * A failing step ends the run with every earlier step still applied: nothing is
   * rolled back. A missing export stops the run before any slot is touched.
   */
  lemma {:induction false} NoRollback(fs: map<Path, Content>, folder: string, faults: Faults)
    ensures var (after, err) := RotationOutcome(fs, folder, faults);
      && (err.Some? && err.value.SourceMissing? ==> after == fs)
      && (err == Some(DeleteFailed(OldFollowers)) ==> after == fs)
      && (err == Some(DeleteFailed(CurrentFollowing)) ==> after == fs - {OldFollowers})
      && (err == Some(RenameFailed(CurrentFollowers, OldFollowers)) ==> after == fs - {OldFollowers, CurrentFollowing})
      && (err == Some(CopyFailed(SourceFollowers(folder), CurrentFollowers)) ==> after == Cleared(fs))
      && (err == Some(CopyFailed(SourceFollowing(folder), CurrentFollowing)) ==>
            after == Cleared(fs)[CurrentFollowers := fs[SourceFollowers(folder)]])
  {
    if SourceFollowers(folder) in fs && SourceFollowing(folder) in fs {
      StepsUnfolded(fs, folder);
    }
  }

  /** No step touches anything but the three slots: the dated folders stay as they are. */
  lemma {:induction false} OnlySlotsChange(fs: map<Path, Content>, folder: string, n: nat)
    ensures forall p :: !IsSlot(p) ==> (p in StepsApplied(fs, folder, n) <==> p in fs)
    ensures forall p :: !IsSlot(p) && p in fs ==> StepsApplied(fs, folder, n)[p] == fs[p]
  {
    if n > 0 {
      OnlySlotsChange(fs, folder, n - 1);
    }
  }

  lemma {:induction false} RotationKeepsSnapshots(fs: map<Path, Content>, folder: string, faults: Faults)
    ensures var after := RotationOutcome(fs, folder, faults).0;
      forall p: Path :: p.InFolder? ==> (p in after <==> p in fs) && (p in fs ==> after[p] == fs[p])
  {
    var outcome := RotationOutcome(fs, folder, faults);
    if outcome.1.None? {
      OnlySlotsChange(fs, folder, 5);
    } else if outcome.1.value.SourceMissing? {
    } else {
      var k := FirstFailure(fs, folder, faults, 0).value;
      OnlySlotsChange(fs, folder, k);
    }
  }

  lemma FailureFound(fs: map<Path, Content>, folder: string, faults: Faults, k: nat)
    requires SourceFollowers(folder) in fs && SourceFollowing(folder) in fs
    requires k < 5 && FirstFailure(fs, folder, faults, 0) == FirstFailure(fs, folder, faults, k)
    requires Attempted(StepsApplied(fs, folder, k), k) && Faulty(faults, k)
    ensures RotationOutcome(fs, folder, faults) == (StepsApplied(fs, folder, k), Some(StepError(folder, k)))
  {
  }

  lemma NoFailureAtAll(fs: map<Path, Content>, folder: string, faults: Faults)
    requires SourceFollowers(folder) in fs && SourceFollowing(folder) in fs
    requires FirstFailure(fs, folder, faults, 0) == FirstFailure(fs, folder, faults, 5)
    ensures RotationOutcome(fs, folder, faults) == (StepsApplied(fs, folder, 5), None)
  {
  }

  lemma NoFailureYet(fs: map<Path, Content>, folder: string, faults: Faults, k: nat)
    requires k < 5 && FirstFailure(fs, folder, faults, 0) == FirstFailure(fs, folder, faults, k)
    requires !(Attempted(StepsApplied(fs, folder, k), k) && Faulty(faults, k))
    ensures FirstFailure(fs, folder, faults, 0) == FirstFailure(fs, folder, faults, k + 1)
  {
  }

  /**
   * Steps 3-4 of `main`: rotate the slots with the exports of `folder`, stopping at the
   * first failing call.
   */
  method Rotate(fs: FileSystem, folder: string, faults: Faults) returns (err: Option<UpdateError>)
    modifies fs
    ensures (fs.files, err) == RotationOutcome(old(fs.files), folder, faults)
  {
    ghost var fs0 := fs.files;
    var sourceFollowers, sourceFollowing := SourceFollowers(folder), SourceFollowing(folder);
    if !fs.Exists(sourceFollowers) {
      return Some(SourceMissing(sourceFollowers));
    }
    if !fs.Exists(sourceFollowing) {
      return Some(SourceMissing(sourceFollowing));
    }

    var ok: bool;
    StepsUnfolded(fs0, folder);
    if fs.Exists(OldFollowers) {
      ok := fs.Remove(OldFollowers, faults.deleteOld);
      if !ok {
        FailureFound(fs0, folder, faults, 0);
        return Some(DeleteFailed(OldFollowers));
      }
    }
    NoFailureYet(fs0, folder, faults, 0);
    assert fs.files == fs0 - {OldFollowers};

    if fs.Exists(CurrentFollowing) {
      ok := fs.Remove(CurrentFollowing, faults.deleteFollowing);
      if !ok {
        FailureFound(fs0, folder, faults, 1);
        return Some(DeleteFailed(CurrentFollowing));
      }
    }
    NoFailureYet(fs0, folder, faults, 1);
    assert fs.files == fs0 - {OldFollowers, CurrentFollowing};

    if fs.Exists(CurrentFollowers) {
      ok := fs.Rename(CurrentFollowers, OldFollowers, faults.rename);
      if !ok {
        FailureFound(fs0, folder, faults, 2);
        return Some(RenameFailed(CurrentFollowers, OldFollowers));
      }
    }
    NoFailureYet(fs0, folder, faults, 2);
    assert fs.files == Cleared(fs0);

    ok := fs.Copy2(sourceFollowers, CurrentFollowers, faults.copyFollowers);
    if !ok {
      FailureFound(fs0, folder, faults, 3);
      return Some(CopyFailed(sourceFollowers, CurrentFollowers));
    }
    NoFailureYet(fs0, folder, faults, 3);
    assert fs.files == StepsApplied(fs0, folder, 4);

    ok := fs.Copy2(sourceFollowing, CurrentFollowing, faults.copyFollowing);
    if !ok {
      FailureFound(fs0, folder, faults, 4);
      return Some(CopyFailed(sourceFollowing, CurrentFollowing));
    }
    NoFailureYet(fs0, folder, faults, 4);
    NoFailureAtAll(fs0, folder, faults);
    err := None;
  }

  /**
   * `main` up to the analysis scripts: `listing` is what `os.listdir(REPORTS_DIR)` returns
   * (`None` when the directory is missing); `folder` is the dated folder that was chosen.
   */
  method UpdateInstagramData(fs: FileSystem, listing: Option<seq<Entry>>, faults: Faults)
    returns (folder: Option<string>, err: Option<UpdateError>)
    modifies fs
    ensures listing.None? ==> folder.None? && err == Some(ReportsDirMissing) && fs.files == old(fs.files)
    ensures listing.Some? && !HasCandidate(listing.value) ==> folder.None? && err == Some(NoSnapshotFound) && fs.files == old(fs.files)
    ensures listing.Some? && HasCandidate(listing.value) ==>
      && folder.Some?
      && (exists k :: IsLatest(listing.value, k) && listing.value[k].name == folder.value)
      && (fs.files, err) == RotationOutcome(old(fs.files), folder.value, faults)
  {
    var selection := FindLatestDatedFolder(listing);
    if selection.ReportsDirNotFound? {
      return None, Some(ReportsDirMissing);
    }
    if selection.NoDatedFolder? {
      return None, Some(NoSnapshotFound);
    }
    folder := Some(selection.name);
    err := Rotate(fs, selection.name, faults);
  }
}
