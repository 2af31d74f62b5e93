/** One backup pass (`backup_databases`) with its outside world made explicit.
    The pass is given the two clock readings, the outcome of creating the
    snapshot folder, the result of scanning the source tree and the outcome of
    each copy; it produces the trace of what it does: directory creation, copy
    attempts and the one notification it sends. */
module Backup {
  import opened Strings
  import opened Paths
  import opened Timestamps
  import opened Scanner
  import opened Snapshot
  import opened Report

  /** The configuration read once at start-up: SOURCE_DIR and BACKUP_DIR. */
  datatype Config = Config(sourceDir: string, backupDir: string)

  /** What `os.makedirs(backup_folder, exist_ok=True)` did: an existing folder is
      not an error, anything else raises with message `reason`. */
  datatype DirOutcome = DirReady | DirFailed(reason: string)

  /** What the two globs over the source tree gave: the walk of every entry
      under the root, or the exception traversal raised. */
  datatype ScanResult = Listed(entries: seq<string>) | ScanFailed(reason: string)

  /** One action of a pass on the outside world. `Send` stands for a call of
      `send_email(subject, body)`, whose result the pass ignores. */
  datatype Effect = MakeDirs(path: string) | Copy(attempt: Attempt) | Send(subject: string, body: string)

  predicate ValidInputs(started: DateTime, reported: DateTime, scan: ScanResult) {
    started.Valid() && reported.Valid() && (scan.Listed? ==> WellFormedWalk(scan.entries))
  }

  function CopyEffects(attempts: seq<Attempt>): (r: seq<Effect>)
    ensures |r| == |attempts|
  {
    seq(|attempts|, i requires 0 <= i < |attempts| => Copy(attempts[i]))
  }

  /** The notification for a fault outside the per-file loop. */
  function CriticalMail(reason: string): Effect {
    Send(CriticalSubject, CriticalBody(reason))
  }

  /** The report for the lists the loop produced. */
  function ReportMail(reported: DateTime, t: Tally, folder: string): Effect
    requires reported.Valid()
  {
    Send(Subject(t.failed), JoinLines(ReportLines(HeaderLine(reported), t.successful, t.failed, folder)))
  }

  /** Everything a pass does, in order. The snapshot folder is created before the
      scan, so even a pass that finds nothing leaves an empty snapshot behind. */
  function PassEffects(cfg: Config, started: DateTime, reported: DateTime, makeFolder: DirOutcome,
                       scan: ScanResult, copy: (string, string) -> CopyOutcome): seq<Effect>
    requires ValidInputs(started, reported, scan)
  {
    var folder := SnapshotFolder(cfg.backupDir, started);
    [MakeDirs(folder)] +
    if makeFolder.DirFailed? then [CriticalMail(makeFolder.reason)]
    else match scan
      case ScanFailed(reason) => [CriticalMail(reason)]
      case Listed(entries) =>
        var files := DbFiles(cfg.sourceDir, entries);
        if files == [] then [Send(WarningSubject, WarningBody(cfg.sourceDir))]
        else
          DbFilesUnderRoot(cfg.sourceDir, entries);
          CopyAndReport(reported, folder, cfg.sourceDir, files, copy)
  }

  /** The copy attempts of a pass that found files, then its report. */
  function CopyAndReport(reported: DateTime, folder: string, root: string, files: seq<string>,
                         copy: (string, string) -> CopyOutcome): (r: seq<Effect>)
    requires reported.Valid() && AllUnder(files, root)
    ensures |r| == |files| + 1
  {
    CopyEffects(Attempts(folder, root, files)) +
    [ReportMail(reported, Partition(files, Outcomes(copy, folder, root, files)), folder)]
  }

  /** `backup_databases`: name and create the snapshot folder, scan, warn when
      nothing was found, otherwise copy every file and send the report; a fault
      outside the per-file loop is reported as a critical error instead. */
  method BackupDatabases(cfg: Config, started: DateTime, reported: DateTime, makeFolder: DirOutcome,
                         scan: ScanResult, copy: (string, string) -> CopyOutcome)
    returns (effects: seq<Effect>)
    requires ValidInputs(started, reported, scan)
    ensures effects == PassEffects(cfg, started, reported, makeFolder, scan, copy)
  {
    var timestamp := Compact(started);
    var backupFolder := Join(cfg.backupDir, FolderPrefix + timestamp);
    effects := [MakeDirs(backupFolder)];
    if makeFolder.DirFailed? {
      effects := effects + [CriticalMail(makeFolder.reason)];
      return;
    }
    if scan.ScanFailed? {
      effects := effects + [CriticalMail(scan.reason)];
      return;
    }
    var dbFiles := DbFiles(cfg.sourceDir, scan.entries);
    if dbFiles == [] {
      effects := effects + [Send(WarningSubject, WarningBody(cfg.sourceDir))];
      return;
    }
    DbFilesUnderRoot(cfg.sourceDir, scan.entries);
    var successful, failed, attempts := CopyAll(copy, backupFolder, cfg.sourceDir, dbFiles);
    effects := effects + CopyEffects(attempts);
    var subject, message := RenderReport(reported, successful, failed, backupFolder);
    effects := effects + [Send(subject, message)];
  }

  function SendCount(effects: seq<Effect>): nat {
    if effects == [] then 0
    else (if effects[0].Send? then 1 else 0) + SendCount(effects[1..])
  }

  lemma {:induction false} SendCountConcat(a: seq<Effect>, b: seq<Effect>)
    ensures SendCount(a + b) == SendCount(a) + SendCount(b)
    decreases |a|
  {
    if a != [] {
      assert (a + b)[0] == a[0];
      assert (a + b)[1..] == a[1..] + b;
      SendCountConcat(a[1..], b);
    } else {
      assert a + b == b;
    }
  }

  lemma {:induction false} SendCountCopies(attempts: seq<Attempt>)
    ensures SendCount(CopyEffects(attempts)) == 0
    decreases |attempts|
  {
    if attempts != [] {
      assert CopyEffects(attempts)[1..] == CopyEffects(attempts[1..]);
      SendCountCopies(attempts[1..]);
    }
  }

  /** Every pass opens by creating the snapshot folder and sends exactly one
      notification, as its last action. */
  lemma PassSendsOnce(cfg: Config, started: DateTime, reported: DateTime, makeFolder: DirOutcome,
                      scan: ScanResult, copy: (string, string) -> CopyOutcome)
    requires ValidInputs(started, reported, scan)
    ensures var effects := PassEffects(cfg, started, reported, makeFolder, scan, copy);
      && |effects| >= 2
      && effects[0] == MakeDirs(SnapshotFolder(cfg.backupDir, started))
      && effects[|effects| - 1].Send?
      && SendCount(effects) == 1
  {
    var effects := PassEffects(cfg, started, reported, makeFolder, scan, copy);
    var folder := SnapshotFolder(cfg.backupDir, started);
    var rest := effects[1..];
    assert effects == [MakeDirs(folder)] + rest;
    SendCountConcat([MakeDirs(folder)], rest);
    if makeFolder.DirReady? && scan.Listed? && DbFiles(cfg.sourceDir, scan.entries) != [] {
      var files := DbFiles(cfg.sourceDir, scan.entries);
      DbFilesUnderRoot(cfg.sourceDir, scan.entries);
      var attempts := Attempts(folder, cfg.sourceDir, files);
      var mail := ReportMail(reported, Partition(files, Outcomes(copy, folder, cfg.sourceDir, files)), folder);
      assert rest == CopyAndReport(reported, folder, cfg.sourceDir, files, copy) == CopyEffects(attempts) + [mail];
      SendCountConcat(CopyEffects(attempts), [mail]);
      SendCountCopies(attempts);
    }
  }

  /** A scan with no `.sql` or `.sqlite3` entry creates the (empty) snapshot
      folder, copies nothing and sends only the warning naming the source
      directory. */
  lemma EmptyScanWarns(cfg: Config, started: DateTime, reported: DateTime, entries: seq<string>,
                       copy: (string, string) -> CopyOutcome)
    requires ValidInputs(started, reported, Listed(entries))
    requires forall i :: 0 <= i < |entries| ==> !IsEligible(entries[i])
    ensures PassEffects(cfg, started, reported, DirReady, Listed(entries), copy) ==
      [MakeDirs(SnapshotFolder(cfg.backupDir, started)),
       Send(WarningSubject, "No database files found in " + cfg.sourceDir)]
  {
    EligibleOrder(entries);
    if Eligible(entries) != [] {
      EligibleCount(entries, Eligible(entries)[0]);
    }
  }

  /** A fault outside the per-file loop (creating the snapshot folder, or the
      scan) ends the pass with one critical notification and no copy. */
  lemma FaultIsCritical(cfg: Config, started: DateTime, reported: DateTime, makeFolder: DirOutcome,
                        scan: ScanResult, copy: (string, string) -> CopyOutcome)
    requires ValidInputs(started, reported, scan)
    requires makeFolder.DirFailed? || scan.ScanFailed?
    ensures PassEffects(cfg, started, reported, makeFolder, scan, copy) ==
      [MakeDirs(SnapshotFolder(cfg.backupDir, started)),
       Send(CriticalSubject, "Backup process failed: " + (if makeFolder.DirFailed? then makeFolder.reason else scan.reason))]
  {
  }

  /** A pass that finds files creates the snapshot folder, attempts every
      discovered file in order towards the snapshot folder joined with its walk
      entry, and ends with a report whose subject is the error report exactly
      when some copy failed. */
  lemma ReportPass(cfg: Config, started: DateTime, reported: DateTime, entries: seq<string>,
                   copy: (string, string) -> CopyOutcome)
    requires ValidInputs(started, reported, Listed(entries))
    requires DbFiles(cfg.sourceDir, entries) != []
    ensures var files, eligible := DbFiles(cfg.sourceDir, entries), Eligible(entries);
      var folder := SnapshotFolder(cfg.backupDir, started);
      var effects := PassEffects(cfg, started, reported, DirReady, Listed(entries), copy);
      && |effects| == |files| + 2
      && effects[0] == MakeDirs(folder)
      && (forall i :: 0 <= i < |files| ==> effects[1 + i] == Copy(Attempt(files[i], Join(folder, eligible[i]))))
      && effects[|files| + 1].Send?
      && (effects[|files| + 1].subject == ErrorSubject <==>
            exists i :: 0 <= i < |files| && copy(files[i], Join(folder, eligible[i])).CopyFailed?)
  {
    var files := DbFiles(cfg.sourceDir, entries);
    var folder := SnapshotFolder(cfg.backupDir, started);
    DbFilesUnderRoot(cfg.sourceDir, entries);
    PassWithFiles(cfg, started, reported, entries, copy);
    CopiesThenReport(reported, folder, cfg.sourceDir, files, Eligible(entries), copy);
  }

  /** The branch of `PassEffects` taken when the scan finds files. */
  lemma PassWithFiles(cfg: Config, started: DateTime, reported: DateTime, entries: seq<string>,
                      copy: (string, string) -> CopyOutcome)
    requires ValidInputs(started, reported, Listed(entries))
    requires DbFiles(cfg.sourceDir, entries) != []
    ensures AllUnder(DbFiles(cfg.sourceDir, entries), cfg.sourceDir)
    ensures PassEffects(cfg, started, reported, DirReady, Listed(entries), copy) ==
      [MakeDirs(SnapshotFolder(cfg.backupDir, started))] +
      CopyAndReport(reported, SnapshotFolder(cfg.backupDir, started), cfg.sourceDir, DbFiles(cfg.sourceDir, entries), copy)
  {
    DbFilesUnderRoot(cfg.sourceDir, entries);
  }

  /** The folder creation, the copies of files whose relative paths are
      `rels`, and the report, read by position. */
  lemma CopiesThenReport(reported: DateTime, folder: string, root: string, files: seq<string>, rels: seq<string>,
                         copy: (string, string) -> CopyOutcome)
    requires reported.Valid() && |rels| == |files|
    requires forall i :: 0 <= i < |files| ==> RelativeTo(files[i], root) == Some(rels[i])
    ensures AllUnder(files, root)
    ensures var effects := [MakeDirs(folder)] + CopyAndReport(reported, folder, root, files, copy);
      && |effects| == |files| + 2
      && effects[0] == MakeDirs(folder)
      && (forall i :: 0 <= i < |files| ==> effects[1 + i] == Copy(Attempt(files[i], Join(folder, rels[i]))))
      && effects[|files| + 1].Send?
      && (effects[|files| + 1].subject == ErrorSubject <==>
            exists i :: 0 <= i < |files| && copy(files[i], Join(folder, rels[i])).CopyFailed?)
  {
    CopiesUnder(reported, folder, root, files, rels, copy);
    ReportUnder(reported, folder, root, files, rels, copy);
    Prepended(MakeDirs(folder), CopyAndReport(reported, folder, root, files, copy));
  }

  /** Indexing past an effect put in front. */
  lemma Prepended(e: Effect, rest: seq<Effect>)
    ensures |[e] + rest| == |rest| + 1 && ([e] + rest)[0] == e
    ensures forall i :: 0 <= i < |rest| ==> ([e] + rest)[1 + i] == rest[i]
  {
  }

  /** `CopiesInOrder` with the relative paths given. */
  lemma CopiesUnder(reported: DateTime, folder: string, root: string, files: seq<string>, rels: seq<string>,
                    copy: (string, string) -> CopyOutcome)
    requires reported.Valid() && |rels| == |files|
    requires forall i :: 0 <= i < |files| ==> RelativeTo(files[i], root) == Some(rels[i])
    ensures AllUnder(files, root)
    ensures var effects := CopyAndReport(reported, folder, root, files, copy);
      forall i :: 0 <= i < |files| ==> effects[i] == Copy(Attempt(files[i], Join(folder, rels[i])))
  {
    CopiesInOrder(reported, folder, root, files, copy);
  }

  /** `ReportCounts` with the relative paths given. */
  lemma ReportUnder(reported: DateTime, folder: string, root: string, files: seq<string>, rels: seq<string>,
                    copy: (string, string) -> CopyOutcome)
    requires reported.Valid() && |rels| == |files|
    requires forall i :: 0 <= i < |files| ==> RelativeTo(files[i], root) == Some(rels[i])
    ensures AllUnder(files, root)
    ensures var mail := CopyAndReport(reported, folder, root, files, copy)[|files|];
      && mail.Send?
      && (mail.subject == ErrorSubject <==>
            exists i :: 0 <= i < |files| && copy(files[i], Join(folder, rels[i])).CopyFailed?)
  {
    ReportCounts(reported, folder, root, files, copy);
    if exists i :: 0 <= i < |files| && OutcomeOf(copy, folder, root, files[i]).CopyFailed? {
      var k :| 0 <= k < |files| && OutcomeOf(copy, folder, root, files[k]).CopyFailed?;
      assert copy(files[k], Join(folder, rels[k])).CopyFailed?;
    }
    if exists i :: 0 <= i < |files| && copy(files[i], Join(folder, rels[i])).CopyFailed? {
      var k :| 0 <= k < |files| && copy(files[k], Join(folder, rels[k])).CopyFailed?;
      assert OutcomeOf(copy, folder, root, files[k]).CopyFailed?;
    }
  }

  /** Every discovered file is attempted, in order, towards the snapshot folder
      joined with its relative path, and the report comes last. */
  lemma CopiesInOrder(reported: DateTime, folder: string, root: string, files: seq<string>,
                      copy: (string, string) -> CopyOutcome)
    requires reported.Valid() && AllUnder(files, root)
    ensures var effects := CopyAndReport(reported, folder, root, files, copy);
      && |effects| == |files| + 1
      && (forall i :: 0 <= i < |files| ==>
            effects[i] == Copy(Attempt(files[i], Join(folder, RelativeTo(files[i], root).value))))
      && effects[|files|] == ReportMail(reported, Partition(files, Outcomes(copy, folder, root, files)), folder)
  {
    AttemptsCoverAll(folder, root, files);
    var attempts := Attempts(folder, root, files);
    var effects := CopyAndReport(reported, folder, root, files, copy);
    forall i | 0 <= i < |files|
      ensures effects[i] == Copy(Attempt(files[i], Join(folder, RelativeTo(files[i], root).value)))
    {
      assert effects[i] == CopyEffects(attempts)[i];
    }
  }

  /** The report of a pass that found files: as many successes as copies
      succeeded, one entry per file in the two lists together, and the error
      subject exactly when some copy failed. */
  lemma ReportCounts(reported: DateTime, folder: string, root: string, files: seq<string>,
                     copy: (string, string) -> CopyOutcome)
    requires reported.Valid() && AllUnder(files, root)
    ensures var outcomes := Outcomes(copy, folder, root, files);
      var t := Partition(files, outcomes);
      var mail := CopyAndReport(reported, folder, root, files, copy)[|files|];
      && |t.successful| == CountCopied(outcomes)
      && |t.successful| + |t.failed| == |files|
      && mail.Send?
      && (mail.subject == ErrorSubject <==>
            exists i :: 0 <= i < |files| && OutcomeOf(copy, folder, root, files[i]).CopyFailed?)
  {
    var outcomes := Outcomes(copy, folder, root, files);
    PartitionSizes(files, outcomes);
    FailedIffSomeCopyFails(files, outcomes);
    var effects := CopyAndReport(reported, folder, root, files, copy);
    assert effects[|files|] == ReportMail(reported, Partition(files, outcomes), folder);
  }
}
