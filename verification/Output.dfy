/** Finding the summary in what restic prints: one JSON message on each line. */
module Output {
  import opened Wrappers
  import opened Models

  datatype ResticSummary = ResticSummary(
    filesNew: Option<int>,
    filesChanged: Option<int>,
    filesUnmodified: Option<int>,
    dirsNew: Option<int>,
    dirsChanged: Option<int>,
    dirsUnmodified: Option<int>,
    dataAdded: Option<int>,
    totalFilesProcessed: Option<int>,
    totalBytesProcessed: Option<int>,
    snapshotId: Option<string>)

  datatype BackupStats = BackupStats(
    filesNew: int,
    filesChanged: int,
    filesUnmodified: int,
    dirsNew: int,
    dirsChanged: int,
    dirsUnmodified: int,
    dataAddedBytes: int,
    totalFilesProcessed: int,
    totalBytesProcessed: int,
    snapshotId: string)

  /** A line of output, by what the JSON parser makes of it. */
  datatype Line =
    | Blank
    | NoMessageType
    | OtherMessage(messageType: string)
    | SummaryMessage(parsed: Option<ResticSummary>)
  {
    predicate Usable() {
      SummaryMessage? && parsed.Some?
    }
  }

  /** The first summary that parses. */
  function FirstSummary(lines: seq<Line>): Option<ResticSummary> {
    if lines == [] then None
    else if lines[0].Usable() then lines[0].parsed
    else FirstSummary(lines[1..])
  }

  function StatsOf(summary: ResticSummary, snapshotId: string): BackupStats {
    BackupStats(
      summary.filesNew.GetOr(0),
      summary.filesChanged.GetOr(0),
      summary.filesUnmodified.GetOr(0),
      summary.dirsNew.GetOr(0),
      summary.dirsChanged.GetOr(0),
      summary.dirsUnmodified.GetOr(0),
      summary.dataAdded.GetOr(0),
      summary.totalFilesProcessed.GetOr(0),
      summary.totalBytesProcessed.GetOr(0),
      snapshotId)
  }

  function Parsed(lines: seq<Line>): Result<BackupStats, AppError> {
    match FirstSummary(lines)
    case None => Err(OutputParseFailed)
    case Some(summary) =>
      match summary.snapshotId
      case None => Err(OutputParseFailed)
      case Some(id) => Ok(StatsOf(summary, id))
  }

  method ParseResticJsonOutput(stdout: seq<Line>) returns (r: Result<BackupStats, AppError>)
    ensures r == Parsed(stdout)
  {
    var summary: Option<ResticSummary> := None;
    var i := 0;
    while i < |stdout|
      invariant 0 <= i <= |stdout|
      invariant summary == None
      invariant FirstSummary(stdout) == FirstSummary(stdout[i..])
    {
      var line := stdout[i];
      i := i + 1;
      if line.Blank? || line.NoMessageType? {
        continue;
      }
      if line.SummaryMessage? {
        match line.parsed {
          case Some(s) =>
            summary := Some(s);
            break;
          case None =>
        }
      }
    }
    if summary.None? {
      return Err(OutputParseFailed);
    }
    match summary.value.snapshotId {
      case None => r := Err(OutputParseFailed);
      case Some(id) => r := Ok(StatsOf(summary.value, id));
    }
  }

  /** Line k is the one the scan stops at. */
  ghost predicate StopsAt(lines: seq<Line>, k: int) {
    && 0 <= k < |lines| && lines[k].Usable()
    && forall j :: 0 <= j < k ==> !lines[j].Usable()
  }

  /** The recursion finds the line the scan stops at, and finds nothing only if there is none. */
  lemma {:induction false} FirstSummaryAt(lines: seq<Line>)
    ensures FirstSummary(lines).None? <==> forall j :: 0 <= j < |lines| ==> !lines[j].Usable()
    ensures forall k :: StopsAt(lines, k) ==> FirstSummary(lines) == lines[k].parsed
  {
    if lines != [] && !lines[0].Usable() {
      FirstSummaryAt(lines[1..]);
      forall k | StopsAt(lines, k) ensures FirstSummary(lines) == lines[k].parsed {
        assert StopsAt(lines[1..], k - 1);
      }
      assert forall j :: 0 < j < |lines| ==> lines[j] == lines[1..][j - 1];
    }
  }

  /**
   Statistics come back exactly when the line the scan stops at carries a snapshot id, whatever follows it, and are
   then that line's, number by number, with zero for those it lacks.
   */
  lemma ParsedIffSnapshot(lines: seq<Line>)
    ensures Parsed(lines).Ok? <==> exists k :: StopsAt(lines, k) && lines[k].parsed.value.snapshotId.Some?
    ensures Parsed(lines).Err? ==> Parsed(lines).error == OutputParseFailed
    ensures forall k :: StopsAt(lines, k) && lines[k].parsed.value.snapshotId.Some? ==>
      var s := lines[k].parsed.value;
      Parsed(lines) ==
      Ok(BackupStats(s.filesNew.GetOr(0), s.filesChanged.GetOr(0), s.filesUnmodified.GetOr(0),
                     s.dirsNew.GetOr(0), s.dirsChanged.GetOr(0), s.dirsUnmodified.GetOr(0), s.dataAdded.GetOr(0),
                     s.totalFilesProcessed.GetOr(0), s.totalBytesProcessed.GetOr(0), s.snapshotId.value))
  {
    FirstSummaryAt(lines);
    if FirstSummary(lines).Some? {
      var k := FirstUsable(lines);
    }
  }

  lemma {:induction false} FirstUsable(lines: seq<Line>) returns (k: int)
    requires FirstSummary(lines).Some?
    ensures StopsAt(lines, k)
  {
    if lines[0].Usable() {
      k := 0;
    } else {
      k := FirstUsable(lines[1..]);
      k := k + 1;
    }
  }

  lemma {:induction false} FirstSummaryOfConcat(a: seq<Line>, b: seq<Line>)
    ensures FirstSummary(a + b) == FirstSummary(a).Or(FirstSummary(b))
  {
    if a == [] {
      assert a + b == b;
    } else {
      FirstSummaryOfConcat(a[1..], b);
      assert (a + b)[1..] == a[1..] + b;
    }
  }

  /** Lines that are no usable summary may be inserted anywhere. */
  lemma NoiseIsIgnored(before: seq<Line>, noise: seq<Line>, after: seq<Line>)
    requires forall line :: line in noise ==> !line.Usable()
    ensures Parsed(before + noise + after) == Parsed(before + after)
  {
    FirstSummaryAt(noise);
    FirstSummaryOfConcat(before + noise, after);
    FirstSummaryOfConcat(before, noise);
    FirstSummaryOfConcat(before, after);
  }

  /** Nothing after the first usable summary matters: a later snapshot id does not repair a missing one. */
  lemma TailIsIgnored(before: seq<Line>, line: Line, tail: seq<Line>)
    requires line.Usable()
    ensures Parsed(before + [line] + tail) == Parsed(before + [line])
    ensures ((forall b :: b in before ==> !b.Usable()) && line.parsed.value.snapshotId.None?) ==>
      Parsed(before + [line] + tail) == Err(OutputParseFailed)
  {
    FirstSummaryOfConcat(before + [line], tail);
    FirstSummaryOfConcat(before, [line]);
    FirstSummaryAt(before);
  }
}
