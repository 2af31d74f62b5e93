# Database backup pass, modelled in Dafny

This project models one pass of a small database backup service, the function
`backup_databases` in `db_backup.py`. A pass does the following:

- it names a snapshot folder `backup_YYYYMMDD_HHMMSS` under the backup root and creates it;
- it finds every `*.sql` file and then every `*.sqlite3` file under the source root;
- it copies each file to the same relative place inside the snapshot, recording
  failures without stopping;
- it sends one e-mail:
  - a warning when nothing was found;
  - the report, or the error report when a copy failed;
  - a critical error when something outside the per-file loop failed.

The outside world is replaced by inputs:

- two clock readings: one names the folder, the other stamps the report header;
- the outcome of creating the snapshot folder;
- the result of scanning the source tree: a walk of every entry, relative to the root, in traversal order;
- a function giving the outcome of each copy from its source and destination.

A pass returns the trace of what it does: `MakeDirs`, one `Copy` per attempted
file, and one `Send(subject, body)`.

Modules, one per concern:

- `Strings` (strings.dfy): `"\n".join` and `split("\n")`, and the round trip between them.
- `Paths` (paths.dfy): POSIX `os.path.join` of two parts, and `relative_to` modelled as stripping a prefix.
- `Timestamps` (timestamps.dfy): the reading and its two `strftime` formats.
- `Scanner` (scanner.dfy): picking out the eligible files by suffix.
- `Snapshot` (snapshot.dfy): the snapshot name, and the imperative per-file loop `CopyAll`, proved against the specification function `Partition`.
- `Report` (report.dfy): the subject, and the message built with `+=` in `RenderReport`, proved equal to the report's lines joined by line breaks.
- `Backup` (backup.dfy): the whole pass `BackupDatabases`, proved against the trace function `PassEffects`.

A missing
source directory is not a critical error, and it does not prevent the snapshot
folder from being created. The folder is created first (db_backup.py:68).
`Path.glob` on a directory that does not exist yields nothing. The pass
therefore leaves an empty snapshot folder behind and sends the "no database
files found" warning. A traversal that does raise is modelled by
`ScanFailed` and leads to the critical notification.

## Model

| member | source | states |
|---|---|---|
| `Timestamps.CompactShape` | db_backup.py:64 | the folder stamp is 15 characters, `YYYYMMDD_HHMMSS`: digits everywhere except `_` at position 8 |
| `Timestamps.ParseCompactInverse` | db_backup.py:64 | reading the stamp back gives the clock reading to the second, so the stamp drops the microseconds and nothing more |
| `Timestamps.CompactCollision` | db_backup.py:64 | two readings give the same stamp if and only if they fall in the same second |
| `Timestamps.ReadableNoNewline` | db_backup.py:103 | the `%Y-%m-%d %H:%M:%S` header stamp contains no line break |
| `Snapshot.SnapshotFolderName` | db_backup.py:64-65 | the snapshot folder lies directly under BACKUP_DIR; its name is `backup_` followed by the stamp (22 characters) |
| `Snapshot.SnapshotFolderCollision` | db_backup.py:64-65 | two passes share a snapshot folder if and only if they start in the same second |
| `Snapshot.SnapshotsDisjoint` | db_backup.py:64-65 | passes started in different seconds have non-overlapping snapshots: nothing inside one folder lies under the other |
| `Paths.SiblingsDisjoint` | db_backup.py:65 | two different names of one length joined under the same directory do not nest: nothing under one lies under the other |
| `Paths.RelativeTo` | db_backup.py:87 | a path relative to a base, when defined, is what follows the base and its separator |
| `Paths.RelativeToJoin` | db_backup.py:87-88 | taking a joined path relative to its base gives back the relative part |
| `Paths.JoinRelativeTo` | db_backup.py:87-88 | joining a base with a path's relative part gives back the path |
| `Scanner.DbFiles` | db_backup.py:71-72 | there is one discovered file per eligible walk entry |
| `Scanner.MatchingCount` | db_backup.py:72 | one glob keeps each entry as often as the walk lists it if its name has the suffix, and drops it otherwise |
| `Scanner.EligibleCount` | db_backup.py:72 | an entry is discovered exactly as often as the walk lists it when it ends in `.sql` or `.sqlite3`, and never otherwise; no file is found by both patterns |
| `Scanner.EligibleOrder` | db_backup.py:72 | every `.sql` match precedes every `.sqlite3` match, and every discovered entry has one of the two suffixes |
| `Scanner.DbFilesUnderRoot` | db_backup.py:71-72 | each discovered file lies under the source root, and its relative path is its walk entry |
| `Snapshot.CopyAll` | db_backup.py:81-99 | the loop's success list, failure list and attempted copies are those of `Partition` and `Attempts`; together the two lists have as many entries as `db_files` |
| `Snapshot.PartitionSizes` | db_backup.py:81-99 | the success list has one entry per file that copied, the failure list one per file that did not |
| `Snapshot.PartitionPlacement` | db_backup.py:84-99 | file `i` lands in exactly one list, at the slot counted by the successes before it: in the success list if it copied, as `file: reason` in the failure list if not; order is kept |
| `Snapshot.FailedIffSomeCopyFails` | db_backup.py:84-99 | the failure list is non-empty if and only if some file's copy failed |
| `Snapshot.AttemptsCoverAll` | db_backup.py:84-99 | whatever the outcomes, every file is attempted, in order, towards its place in the snapshot: a failure does not stop the loop |
| `Snapshot.BackupFileKeepsLayout` | db_backup.py:86-94 | a file at relative path `rel` under the source root is copied to `rel` under the snapshot folder |
| `Report.Subject` | db_backup.py:102-113 | the subject is the error report if and only if the failure list is non-empty, and the plain report otherwise |
| `Report.ReportText` | db_backup.py:103-115 | the report lines joined by line breaks are the header, a blank line, the success section, and then the failure section or the closing line |
| `Report.RenderReport` | db_backup.py:101-115 | the message built with `+=` equals the report lines joined by line breaks; the subject is `Subject(failed)` |
| `Report.BodyStartsWithHeader` | db_backup.py:103 | every report body opens with the header line and a blank line |
| `Report.HeaderLineNoNewline` | db_backup.py:103 | the header line contains no line break |
| `Report.BodySections` | db_backup.py:103-115 | read back line by line: the success heading comes just after the blank line if and only if a file was copied, and the successes follow it in order; the failure heading then follows if and only if a copy failed, with the failure entries after it in order; the closing line naming the folder ends the body if and only if nothing failed |
| `Report.ReportLinesLayout` | db_backup.py:103-115 | the report lines hold the header, a blank line, the success section exactly when something was copied, then the failure section exactly when something failed and the closing line exactly when nothing did |
| `Report.ReportLinesNoNewline` | db_backup.py:103-115 | no report line holds a line break when the header, the entries and the folder hold none |
| `Strings.LinesOfJoin` | db_backup.py:107 | splitting at line breaks undoes `"\n".join` when no piece contains a line break |
| `Backup.BackupDatabases` | db_backup.py:60-123 | the pass's trace is `PassEffects`: first the folder is created; then a critical notice, a warning, or the copies followed by the report |
| `Backup.PassSendsOnce` | db_backup.py:60-123 | every pass starts by creating the snapshot folder and sends exactly one notification, as its last action |
| `Backup.EmptyScanWarns` | db_backup.py:68-78 | with no eligible entry, the pass creates the snapshot folder, copies nothing and only sends `Database Backup Warning` / `No database files found in <SOURCE_DIR>` |
| `Backup.FaultIsCritical` | db_backup.py:120-123 | if creating the folder or scanning fails, the pass copies nothing and only sends `Database Backup Critical Error` / `Backup process failed: <reason>` |
| `Backup.ReportPass` | db_backup.py:68-118 | when the scan finds files, the pass creates the snapshot folder, then attempts file `i` towards the snapshot folder joined with walk entry `i`, in order, and last sends one report, whose subject is the error report if and only if some copy failed |
| `Backup.CopiesInOrder` | db_backup.py:84-118 | each discovered file is attempted in order, towards the snapshot folder joined with its path relative to the source root; the report is sent after the last attempt |
| `Backup.ReportCounts` | db_backup.py:81-113 | the report lists as many successes as copies succeeded, and the two lists together hold one entry per file; its subject is the error report if and only if some copy failed |

## Left out

- `send_email` (db_backup.py:35-57): SMTP and MIME are not modelled. A send is the effect `Send(subject, body)`, and the pass ignores its result.
- `main` (db_backup.py:126-143): the schedule loop is not modelled. It runs one pass at start-up and then one pass daily, through the external `schedule` library and `time.sleep`.
- Configuration and logging (db_backup.py:13-32): these run at module load. SOURCE_DIR and BACKUP_DIR are the immutable `Config`. The log lines of the pass (db_backup.py:76, 96, 99, 122) are not modelled.
- `datetime.now()` (db_backup.py:64, 103): the two readings are parameters.
- Filesystem calls are inputs:
  - the outcome of `os.makedirs(backup_folder)` is an input;
  - the per-file `os.makedirs` of the parent directory and `shutil.copy2` are one injected outcome per file;
  - the two globs are one walk of the tree, given as relative entries in traversal order. Both patterns see the same walk. The traversal order itself, symbolic links and hidden-file rules are not modelled.
- An entry matches a pattern when its relative path ends in the suffix. That is the same as its name ending in the suffix, since neither suffix contains `/`. A matching directory is listed like a file, and its copy outcome is then a failure.
- Pathlib normalisation is not modelled: collapsing `//` and `.` or dropping a trailing slash. `str(file)` is modelled as `os.path.join(SOURCE_DIR, entry)` on the string SOURCE_DIR.
- `Paths.RelativeTo`: the message of pathlib's `ValueError` is not modelled. The model returns `None` instead. A discovered file always lies under the source root, so the pass never reaches that case.
- `Paths.RelativeTo`: a path equal to the base gives `None`, and a path that is the base followed by a separator gives `Some("")`; pathlib gives `.` for both. Walk entries are non-empty and relative, so every discovered file lies strictly below the source root and the pass never reaches these cases.
- `Timestamps.Compact`: `%Y` is modelled as four digits with zero padding. On some C libraries, `strftime` prints years before 1000 without padding.
- `Timestamps.DateTime`: the model does not check that a day exists in its month. A valid reading only has its day between 1 and 31.
- Exceptions that do not derive from `Exception`, such as `KeyboardInterrupt`, are not modelled. They would escape the pass without a notification.
- `Report.BodySections`: this lemma only covers a header, file names, failure reasons and a folder that contain no line break. A line break inside one of them makes the line-by-line reading ambiguous. `Report.RenderReport` and `Report.BodyStartsWithHeader` hold without this restriction.
- The default BACKUP_DIR, `backup` under the working directory, lies inside the default SOURCE_DIR, the working directory (db_backup.py:31-32). The recursive globs then also find the `.sql` and `.sqlite3` copies in earlier snapshots, and each pass copies them again, so the set of copied files grows from pass to pass. The walk is an unconstrained input, so the model neither shows nor excludes this; `Backup.ReportPass` copies whatever eligible entries the walk lists, snapshot copies included.
