/** The snapshot step of a backup pass: naming the snapshot folder after the
    start time, and the per-file loop that copies every discovered file to the
    same relative place under that folder, recording each success and failure
    without stopping at a failure. The outcome of each copy is an input. */
module Snapshot {
  import opened Strings
  import opened Paths
  import opened Timestamps

  const FolderPrefix := "backup_"

  /** `os.path.join(BACKUP_DIR, "backup_" + started.strftime("%Y%m%d_%H%M%S"))` */
  function SnapshotFolder(backupDir: string, started: DateTime): string
    requires started.Valid()
  {
    Join(backupDir, FolderPrefix + Compact(started))
  }

  /** The snapshot folder sits directly under the backup root and is called
      `backup_YYYYMMDD_HHMMSS`. */
  lemma SnapshotFolderName(backupDir: string, started: DateTime)
    requires started.Valid()
    ensures RelativeTo(SnapshotFolder(backupDir, started), backupDir) == Some(FolderPrefix + Compact(started))
    ensures |FolderPrefix + Compact(started)| == 22
    ensures (FolderPrefix + Compact(started))[15] == '_'
    ensures forall i :: 7 <= i < 22 && i != 15 ==> IsDigit((FolderPrefix + Compact(started))[i])
  {
    CompactShape(started);
    var name := FolderPrefix + Compact(started);
    assert forall i :: 7 <= i < 22 ==> name[i] == Compact(started)[i - 7];
    RelativeToJoin(backupDir, name);
  }

  /** Two passes share a snapshot folder exactly when they start in the same
      second. */
  lemma SnapshotFolderCollision(backupDir: string, a: DateTime, b: DateTime)
    requires a.Valid() && b.Valid()
    ensures SnapshotFolder(backupDir, a) == SnapshotFolder(backupDir, b) <==> SameSecond(a, b)
  {
    SnapshotFolderName(backupDir, a);
    SnapshotFolderName(backupDir, b);
    CompactCollision(a, b);
    var na, nb := FolderPrefix + Compact(a), FolderPrefix + Compact(b);
    assert na == nb ==> Compact(a) == na[7..] == nb[7..] == Compact(b);
  }

  /** Passes started in different seconds have non-overlapping snapshots: no
      path inside one snapshot folder lies under the other. */
  lemma SnapshotsDisjoint(backupDir: string, a: DateTime, b: DateTime, rel: string)
    requires a.Valid() && b.Valid() && !SameSecond(a, b)
    requires !IsAbsolute(rel)
    ensures RelativeTo(Join(SnapshotFolder(backupDir, b), rel), SnapshotFolder(backupDir, a)) == None
  {
    SnapshotFolderName(backupDir, a);
    SnapshotFolderName(backupDir, b);
    CompactCollision(a, b);
    var na, nb := FolderPrefix + Compact(a), FolderPrefix + Compact(b);
    assert na[7..] == Compact(a) && nb[7..] == Compact(b);
    assert na[0] == 'b' && nb[0] == 'b';
    SiblingsDisjoint(backupDir, na, nb, rel);
  }

  /** What `shutil.copy2` (with the `os.makedirs` of the destination's parent
      before it) did for one file: copied it, or raised with message `reason`. */
  datatype CopyOutcome = Copied | CopyFailed(reason: string)

  /** One attempted copy, from a discovered file to its place in the snapshot. */
  datatype Attempt = Attempt(source: string, destination: string)

  /** The two lists the loop builds: `successful_backups` and `failed_backups`. */
  datatype Tally = Tally(successful: seq<string>, failed: seq<string>)

  predicate AllUnder(files: seq<string>, root: string) {
    forall i :: 0 <= i < |files| ==> RelativeTo(files[i], root).Some?
  }

  /** `os.path.join(backup_folder, str(file.relative_to(source_path)))` */
  function BackupFile(folder: string, root: string, file: string): string
    requires RelativeTo(file, root).Some?
  {
    Join(folder, RelativeTo(file, root).value)
  }

  /** `f"{file}: {str(e)}"` */
  function FailureEntry(file: string, reason: string): string {
    file + ": " + reason
  }

  /** The injected outcome of copying `file` to its place in the snapshot. */
  function OutcomeOf(copy: (string, string) -> CopyOutcome, folder: string, root: string, file: string): CopyOutcome
    requires RelativeTo(file, root).Some?
  {
    copy(file, BackupFile(folder, root, file))
  }

  /** The copies the loop attempts, in order. */
  function Attempts(folder: string, root: string, files: seq<string>): (r: seq<Attempt>)
    requires AllUnder(files, root)
    ensures |r| == |files|
    decreases |files|
  {
    if files == [] then []
    else
      var file := files[|files| - 1];
      Attempts(folder, root, files[..|files| - 1]) + [Attempt(file, BackupFile(folder, root, file))]
  }

  /** The injected outcome of every file's copy, in order. */
  function Outcomes(copy: (string, string) -> CopyOutcome, folder: string, root: string, files: seq<string>): (r: seq<CopyOutcome>)
    requires AllUnder(files, root)
    ensures |r| == |files|
    ensures forall i :: 0 <= i < |files| ==> r[i] == OutcomeOf(copy, folder, root, files[i])
  {
    seq(|files|, i requires 0 <= i < |files| && AllUnder(files, root) => OutcomeOf(copy, folder, root, files[i]))
  }

  /** The lists after the loop has run over `files`, one file after another,
      where copying `files[i]` had outcome `outcomes[i]`. */
  function Partition(files: seq<string>, outcomes: seq<CopyOutcome>): Tally
    requires |files| == |outcomes|
    decreases |files|
  {
    if files == [] then Tally([], [])
    else
      var n := |files|;
      var prev := Partition(files[..n - 1], outcomes[..n - 1]);
      match outcomes[n - 1]
      case Copied => Tally(prev.successful + [files[n - 1]], prev.failed)
      case CopyFailed(reason) => Tally(prev.successful, prev.failed + [FailureEntry(files[n - 1], reason)])
  }

  /** How many of the outcomes are successful copies. */
  function CountCopied(outcomes: seq<CopyOutcome>): nat
    decreases |outcomes|
  {
    if outcomes == [] then 0
    else CountCopied(outcomes[..|outcomes| - 1]) + (if outcomes[|outcomes| - 1].Copied? then 1 else 0)
  }

  /** The loop over `db_files` (one `try` per file). Every file is attempted,
      whatever happened to the ones before it. */
  method CopyAll(copy: (string, string) -> CopyOutcome, folder: string, root: string, files: seq<string>)
    returns (successful: seq<string>, failed: seq<string>, attempts: seq<Attempt>)
    requires AllUnder(files, root)
    ensures Tally(successful, failed) == Partition(files, Outcomes(copy, folder, root, files))
    ensures attempts == Attempts(folder, root, files)
    ensures |successful| + |failed| == |files|
  {
    ghost var outcomes := Outcomes(copy, folder, root, files);
    successful, failed, attempts := [], [], [];
    for i := 0 to |files|
      invariant Tally(successful, failed) == Partition(files[..i], outcomes[..i])
      invariant attempts == Attempts(folder, root, files[..i])
    {
      var file := files[i];
      assert files[..i + 1][..i] == files[..i];
      assert outcomes[..i + 1][..i] == outcomes[..i];
      var relPath := RelativeTo(file, root).value;
      var backupFile := Join(folder, relPath);
      attempts := attempts + [Attempt(file, backupFile)];
      var outcome := copy(file, backupFile);
      assert outcome == outcomes[i];
      match outcome {
        case Copied =>
          successful := successful + [file];
        case CopyFailed(e) =>
          failed := failed + [FailureEntry(file, e)];
      }
    }
    assert files[..|files|] == files;
    assert outcomes[..|files|] == outcomes;
    PartitionSizes(files, outcomes);
  }

  /** Sizes: the successes are the files that copied, the failures the rest, so
      `|successful| + |failed| == |db_files|`. */
  lemma {:induction false} PartitionSizes(files: seq<string>, outcomes: seq<CopyOutcome>)
    requires |files| == |outcomes|
    ensures |Partition(files, outcomes).successful| == CountCopied(outcomes)
    ensures |Partition(files, outcomes).failed| == |files| - CountCopied(outcomes)
    decreases |files|
  {
    if files != [] {
      var n := |files|;
      PartitionSizes(files[..n - 1], outcomes[..n - 1]);
    }
  }

  lemma {:induction false} CountCopiedBound(outcomes: seq<CopyOutcome>)
    ensures CountCopied(outcomes) <= |outcomes|
    decreases |outcomes|
  {
    if outcomes != [] {
      CountCopiedBound(outcomes[..|outcomes| - 1]);
    }
  }

  /** Partition: the file at position `i` lands in exactly one list, at the slot
      given by how many files before it copied: in the success list when its copy
      succeeded, as `file: reason` in the failure list when it failed. Slots grow
      with `i`, so both lists keep the input order. */
  lemma {:induction false} PartitionPlacement(files: seq<string>, outcomes: seq<CopyOutcome>, i: nat)
    requires |files| == |outcomes| && i < |files|
    ensures outcomes[i].Copied? ==>
      var t, k := Partition(files, outcomes), CountCopied(outcomes[..i]);
      k < |t.successful| && t.successful[k] == files[i]
    ensures outcomes[i].CopyFailed? ==>
      var t, k := Partition(files, outcomes), CountCopied(outcomes[..i]);
      0 <= i - k < |t.failed| && t.failed[i - k] == FailureEntry(files[i], outcomes[i].reason)
    decreases |files|
  {
    var n := |files|;
    var init, initOutcomes := files[..n - 1], outcomes[..n - 1];
    var prev, t := Partition(init, initOutcomes), Partition(files, outcomes);
    var k := CountCopied(outcomes[..i]);
    PartitionSizes(init, initOutcomes);
    CountCopiedBound(outcomes[..i]);
    if i < n - 1 {
      assert initOutcomes[..i] == outcomes[..i];
      assert init[i] == files[i] && initOutcomes[i] == outcomes[i];
      PartitionPlacement(init, initOutcomes, i);
      if outcomes[i].Copied? {
        assert t.successful[k] == prev.successful[k];
      } else {
        assert t.failed[i - k] == prev.failed[i - k];
      }
    } else {
      assert outcomes[..i] == initOutcomes;
    }
  }

  /** The failure list is non-empty exactly when some file's copy failed. */
  lemma {:induction false} FailedIffSomeCopyFails(files: seq<string>, outcomes: seq<CopyOutcome>)
    requires |files| == |outcomes|
    ensures Partition(files, outcomes).failed != [] <==>
      exists i :: 0 <= i < |outcomes| && outcomes[i].CopyFailed?
    decreases |files|
  {
    if files != [] {
      var n := |files|;
      var initOutcomes := outcomes[..n - 1];
      FailedIffSomeCopyFails(files[..n - 1], initOutcomes);
      if exists i :: 0 <= i < n - 1 && initOutcomes[i].CopyFailed? {
        var i :| 0 <= i < n - 1 && initOutcomes[i].CopyFailed?;
        assert outcomes[i] == initOutcomes[i];
      }
      if exists i :: 0 <= i < n && outcomes[i].CopyFailed? {
        var i :| 0 <= i < n && outcomes[i].CopyFailed?;
        if i < n - 1 { assert initOutcomes[i] == outcomes[i]; }
      }
    }
  }

  /** A failure does not stop the loop: every file is attempted, in order, to
      the place the relative path gives it, whatever the outcomes. */
  lemma {:induction false} AttemptsCoverAll(folder: string, root: string, files: seq<string>)
    requires AllUnder(files, root)
    ensures |Attempts(folder, root, files)| == |files|
    ensures forall i :: 0 <= i < |files| ==>
      Attempts(folder, root, files)[i] == Attempt(files[i], BackupFile(folder, root, files[i]))
    decreases |files|
  {
    if files != [] {
      var init := files[..|files| - 1];
      AttemptsCoverAll(folder, root, init);
      assert forall i :: 0 <= i < |init| ==> init[i] == files[i];
    }
  }

  /** Relative structure is preserved: a file at `rel` under the source root is
      copied to `rel` under the snapshot folder. */
  lemma BackupFileKeepsLayout(folder: string, root: string, rel: string)
    requires !IsAbsolute(rel)
    ensures RelativeTo(Join(root, rel), root) == Some(rel)
    ensures BackupFile(folder, root, Join(root, rel)) == Join(folder, rel)
    ensures RelativeTo(BackupFile(folder, root, Join(root, rel)), folder) == Some(rel)
  {
    RelativeToJoin(root, rel);
    RelativeToJoin(folder, rel);
  }
}
