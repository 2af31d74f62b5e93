/** The notification texts of a backup pass: the subject chosen from the
    failure list, and the report body built up piece by piece from the header,
    the success section and either the failure section or the closing line. */
module Report {
  import opened Strings
  import opened Timestamps

  const ReportSubject := "Database Backup Report"
  const ErrorSubject := "Database Backup Error Report"
  const WarningSubject := "Database Backup Warning"
  const CriticalSubject := "Database Backup Critical Error"

  // Long literals are written in two pieces so that the verifier can see
  // their characters.
  const SuccessHeading := "Successfully backed up " + "the following files:"
  const FailureHeading := "Failed to backup " + "the following files:"
  const ClosingPrefix := "All database files were " + "successfully backed up to: "

  function HeaderLine(reported: DateTime): string
    requires reported.Valid()
  {
    "Database Backup Report - " + Readable(reported)
  }

  function ClosingLine(folder: string): string {
    ClosingPrefix + folder
  }

  /** Body of the warning sent when the scan finds nothing. */
  function WarningBody(sourceDir: string): string {
    "No database files found in " + sourceDir
  }

  /** Body of the critical notification for a fault outside the per-file loop. */
  function CriticalBody(reason: string): string {
    "Backup process failed: " + reason
  }

  /** The subject starts as the plain report and becomes the error report as
      soon as there is a failure. */
  function Subject(failed: seq<string>): (r: string)
    ensures r == ErrorSubject <==> failed != []
    ensures r == ReportSubject <==> failed == []
  {
    if failed == [] then ReportSubject else ErrorSubject
  }

  /** The success section as the pass writes it: empty when nothing was copied. */
  function SuccessText(successful: seq<string>): string {
    if successful == [] then "" else SuccessHeading + "\n" + JoinLines(successful) + "\n\n"
  }

  /** The failure section, or the closing line when nothing failed. */
  function TailText(failed: seq<string>, folder: string): string {
    if failed == [] then ClosingLine(folder) else FailureHeading + "\n" + JoinLines(failed)
  }

  /** The success section as lines: heading, every success, a blank line. */
  function SuccessLines(successful: seq<string>): seq<string> {
    if successful == [] then [] else [SuccessHeading] + successful + [""]
  }

  /** The failure section as lines, or the closing line alone. */
  function TailLines(failed: seq<string>, folder: string): seq<string> {
    if failed == [] then [ClosingLine(folder)] else [FailureHeading] + failed
  }

  /** The lines of a report: header and blank line; the success heading, every
      success and a blank line when something was copied; then the failure
      heading and every failure entry, or the closing line when nothing failed. */
  function ReportLines(header: string, successful: seq<string>, failed: seq<string>, folder: string): seq<string> {
    [header, ""] + SuccessLines(successful) + TailLines(failed, folder)
  }

  lemma SuccessLinesText(successful: seq<string>)
    requires successful != []
    ensures JoinLines(SuccessLines(successful)) + "\n" == SuccessText(successful)
  {
    JoinLinesConcat([SuccessHeading], successful);
    JoinLinesConcat([SuccessHeading] + successful, [""]);
  }

  lemma TailLinesText(failed: seq<string>, folder: string)
    ensures JoinLines(TailLines(failed, folder)) == TailText(failed, folder)
  {
    if failed != [] {
      JoinLinesConcat([FailureHeading], failed);
    }
  }

  /** Writing the three parts one after another gives the report lines joined
      by line breaks. */
  lemma ReportText(h: string, successful: seq<string>, failed: seq<string>, folder: string)
    ensures JoinLines(ReportLines(h, successful, failed, folder)) ==
            h + "\n\n" + SuccessText(successful) + TailText(failed, folder)
  {
    var header := [h, ""];
    var lead := header + SuccessLines(successful);
    var tail := TailLines(failed, folder);
    assert ReportLines(h, successful, failed, folder) == lead + tail;
    TailLinesText(failed, folder);
    JoinLinesConcat(lead, tail);
    assert JoinLines(header) == h + "\n";
    if successful != [] {
      SuccessLinesText(successful);
      JoinLinesConcat(header, SuccessLines(successful));
    } else {
      assert lead == header;
    }
    assert JoinLines(lead) + "\n" == h + "\n\n" + SuccessText(successful);
  }

  /** Lines 101-115 of the pass: `subject` and `message` built step by step.
      The message is exactly the report lines joined by line breaks. */
  method RenderReport(reported: DateTime, successful: seq<string>, failed: seq<string>, folder: string)
    returns (subject: string, message: string)
    requires reported.Valid()
    ensures subject == Subject(failed)
    ensures message == JoinLines(ReportLines(HeaderLine(reported), successful, failed, folder))
  {
    var header := HeaderLine(reported);
    subject := ReportSubject;
    message := header + "\n\n";
    ghost var lead := message;

    if successful != [] {
      message := message + SuccessHeading + "\n";
      message := message + JoinLines(successful);
      message := message + "\n\n";
      assert message == lead + SuccessText(successful);
    }
    ghost var body := message;
    assert body == lead + SuccessText(successful);

    if failed != [] {
      message := message + FailureHeading + "\n";
      message := message + JoinLines(failed);
      subject := ErrorSubject;
    } else {
      message := message + ClosingLine(folder);
    }
    assert message == body + TailText(failed, folder);
    ReportText(header, successful, failed, folder);
  }

  /** Every report body opens with the header line and a blank line. */
  lemma BodyStartsWithHeader(h: string, successful: seq<string>, failed: seq<string>, folder: string)
    ensures IsPrefix(h + "\n\n", JoinLines(ReportLines(h, successful, failed, folder)))
  {
    ReportText(h, successful, failed, folder);
    var lead := h + "\n\n";
    var body := lead + (SuccessText(successful) + TailText(failed, folder));
    assert body[..|lead|] == lead;
  }

  /** Where the failure section, or the closing line, starts. */
  function TailStart(successful: seq<string>): nat {
    if successful == [] then 2 else |successful| + 4
  }

  /** The header line holds no line break. */
  lemma HeaderLineNoNewline(reported: DateTime)
    requires reported.Valid()
    ensures NoNewline(HeaderLine(reported))
  {
    ReadableNoNewline(reported);
    NoNewlineConcat("Database Backup Report - ", Readable(reported));
  }

  /** No line of a report holds a line break when its parts hold none. */
  lemma ReportLinesNoNewline(h: string, successful: seq<string>, failed: seq<string>, folder: string)
    requires NoNewline(h) && AllNoNewline(successful) && AllNoNewline(failed) && NoNewline(folder)
    ensures AllNoNewline(ReportLines(h, successful, failed, folder))
  {
    var header := [h, ""];
    var lead := header + SuccessLines(successful);
    if successful != [] {
      AllNoNewlineConcat([SuccessHeading], successful);
      AllNoNewlineConcat([SuccessHeading] + successful, [""]);
    }
    AllNoNewlineConcat(header, SuccessLines(successful));
    if failed != [] {
      AllNoNewlineConcat([FailureHeading], failed);
    } else {
      NoNewlineConcat(ClosingPrefix, folder);
    }
    AllNoNewlineConcat(lead, TailLines(failed, folder));
  }

  /** Where each section sits among the lines of a report. */
  lemma ReportLinesLayout(h: string, successful: seq<string>, failed: seq<string>, folder: string)
    ensures var lines := ReportLines(h, successful, failed, folder);
      && |lines| > TailStart(successful)
      && lines[0] == h && lines[1] == ""
      && (lines[2] == SuccessHeading <==> successful != [])
      && (successful != [] ==> lines[3..3 + |successful|] == successful && lines[3 + |successful|] == "")
      && (lines[TailStart(successful)] == FailureHeading <==> failed != [])
      && (failed != [] ==> lines[TailStart(successful) + 1..] == failed)
      && (lines[TailStart(successful)..] == [ClosingLine(folder)] <==> failed == [])
  {
    var lines := ReportLines(h, successful, failed, folder);
    var lead := [h, ""] + SuccessLines(successful);
    var tail := TailLines(failed, folder);
    var t := TailStart(successful);
    assert |lead| == t;
    assert lines[t..] == tail;
    assert lines[0] == lead[0] == h && lines[1] == lead[1] == "";
    var c := ClosingLine(folder);
    assert c[0] == 'A' && FailureHeading[0] == 'F' && SuccessHeading[0] == 'S';
    if successful != [] {
      assert lines[2] == lead[2] == SuccessHeading;
      assert lines[3..3 + |successful|] == lead[3..3 + |successful|] == successful;
      assert lines[3 + |successful|] == lead[3 + |successful|] == "";
    } else {
      assert lines[2] == tail[0];
    }
  }

  /** The sections of a report body, read back from its lines. When neither the
      header, nor a success entry, nor a failure entry, nor the folder holds a
      line break:
      - line 0 is the header and line 1 is blank;
      - the success heading is line 2 exactly when something was copied, and
        the next lines are the successes in order;
      - the failure heading opens the tail exactly when something failed, and
        the failure entries follow it in order;
      - the closing line naming the folder is the tail exactly when nothing
        failed. */
  lemma BodySections(h: string, successful: seq<string>, failed: seq<string>, folder: string)
    requires NoNewline(h) && AllNoNewline(successful) && AllNoNewline(failed) && NoNewline(folder)
    ensures var lines := Lines(JoinLines(ReportLines(h, successful, failed, folder)));
      && |lines| > TailStart(successful)
      && lines[0] == h && lines[1] == ""
      && (lines[2] == SuccessHeading <==> successful != [])
      && (successful != [] ==> lines[3..3 + |successful|] == successful && lines[3 + |successful|] == "")
      && (lines[TailStart(successful)] == FailureHeading <==> failed != [])
      && (failed != [] ==> lines[TailStart(successful) + 1..] == failed)
      && (lines[TailStart(successful)..] == [ClosingLine(folder)] <==> failed == [])
  {
    ReportLinesNoNewline(h, successful, failed, folder);
    LinesOfJoin(ReportLines(h, successful, failed, folder));
    ReportLinesLayout(h, successful, failed, folder);
  }
}
