/**
 * What happens to a line's media flag and file ID over appends, uploads and resyncs
 * (internal/server/handlers_worker.go, internal/store/transcripts.go).
 */
module MediaFlags {
  import opened Prelude
  import opened Transcripts

  /** The handlers that write transcript rows of a stream, each as one step. */
  datatype Op =
    | AppendLine(line: Line)
    | UploadMedia(id: int, fileID: string)
    | Resync(lines: seq<Line>)

  /** syncHandler with its read of the flags and its replacement in one step. */
  ghost function ResyncRows(t: Transcript, lines: seq<Line>): Transcript {
    AcceptSync(t, AvailableFiles(t), lines)
  }

  ghost predicate Possible(t: Transcript, op: Op, after: Transcript) {
    match op
    case AppendLine(line) =>
      exists last :: IsLast(t, last) &&
        after == (match AcceptLine(t, last, line) case Ok(u) => u case Err(_) => t)
    case UploadMedia(id, fileID) =>
      after == (match SetAvailable(t, id, fileID, true) case Ok(u) => u case Err(_) => t)
    case Resync(lines) => after == ResyncRows(t, lines)
  }

  /** tables[0], then one handler after another. */
  ghost predicate IsHistory(tables: seq<Transcript>, ops: seq<Op>) {
    && |tables| == |ops| + 1
    && forall k :: 0 <= k < |ops| ==> Possible(tables[k], ops[k], tables[k + 1])
  }

  ghost predicate KeepsLine(ops: seq<Op>, id: int) {
    forall k :: 0 <= k < |ops| && ops[k].Resync? ==> HasID(ops[k].lines, id)
  }

  /** The file the last upload for the line brought, or `before` if there was none. */
  ghost function LatestUpload(ops: seq<Op>, id: int, before: string): string {
    if ops == [] then before
    else
      var op := ops[|ops| - 1];
      if op.UploadMedia? && op.id == id then op.fileID
      else LatestUpload(ops[..|ops| - 1], id, before)
  }

  ghost predicate Shows(t: Transcript, id: int, fileID: string) {
    id in t && t[id].available && FileText(t[id]) == fileID
  }

  lemma {:induction false} ResyncKeepsFlag(t: Transcript, lines: seq<Line>, id: int, fileID: string)
    requires Shows(t, id, fileID) && HasID(lines, id)
    ensures Shows(ResyncRows(t, lines), id, fileID)
  {
    var carried := CarryOver(AvailableFiles(t), lines);
    InsertAllMeaning(carried);
    if InsertAll(carried).Ok? {
      var i :| 0 <= i < |lines| && lines[i].id == id;
      assert carried[i] == CarryLine(AvailableFiles(t), lines[i]);
      assert InsertAll(carried).value[carried[i].id] == RowOf(carried[i]);
    }
  }

  /** Once available, a line stays available, and its file ID is that of the last upload for it. */
  lemma {:induction false} MediaSurvives(tables: seq<Transcript>, ops: seq<Op>, id: int, fileID: string)
    requires IsHistory(tables, ops) && KeepsLine(ops, id)
    requires Shows(tables[0], id, fileID)
    ensures Shows(tables[|ops|], id, LatestUpload(ops, id, fileID))
  {
    if ops != [] {
      var n := |ops| - 1;
      assert forall k :: 0 <= k < n ==> ops[..n][k] == ops[k];
      assert forall k :: 0 <= k < n ==> Possible(tables[..n + 1][k], ops[..n][k], tables[..n + 1][k + 1]);
      MediaSurvives(tables[..n + 1], ops[..n], id, fileID);
      var before := LatestUpload(ops[..n], id, fileID);
      assert Possible(tables[n], ops[n], tables[n + 1]);
      match ops[n]
      case AppendLine(line) =>
      case UploadMedia(other, f) =>
      case Resync(lines) => ResyncKeepsFlag(tables[n], lines, id, before);
    }
  }

  // ---------------------------------------------------------------- the two statements of syncHandler

  /** syncHandler reads the flags in one statement and replaces the rows in a later transaction: the
      rows after it, for a body with distinct line IDs. */
  lemma {:induction false} SplitResyncRow(atRead: Transcript, lines: seq<Line>, i: nat)
    requires DistinctIDs(lines) && i < |lines|
    ensures var after := InsertAll(CarryOver(AvailableFiles(atRead), lines));
            after.Ok? && lines[i].id in after.value
            && after.value[lines[i].id] == RowOf(CarryLine(AvailableFiles(atRead), lines[i]))
  {
    var carried := CarryOver(AvailableFiles(atRead), lines);
    assert forall j :: 0 <= j < |lines| ==> carried[j].id == lines[j].id;
    assert DistinctIDs(carried);
    InsertAllMeaning(carried);
    assert carried[i].id in InsertAll(carried).value;
  }

  /** A line available when the replacement commits is available afterwards exactly when it already
      was at the read, or the worker's own copy says so. */
  lemma {:induction false} SplitResyncKeepsFlagIff(atRead: Transcript, atCommit: Transcript, lines: seq<Line>, i: nat)
    requires DistinctIDs(lines) && i < |lines|
    requires lines[i].id in atCommit && atCommit[lines[i].id].available
    ensures var id, after := lines[i].id, AcceptSync(atCommit, AvailableFiles(atRead), lines);
            && id in after
            && (after[id].available <==> (id in atRead && atRead[id].available) || lines[i].available)
  {
    SplitResyncRow(atRead, lines, i);
  }

  /** And it keeps the flag with the file it shows at the commit exactly when it already showed that
      file at the read, or, if it was not available then, the worker's own copy names it. */
  lemma {:induction false} SplitResyncKeepsMediaIff(atRead: Transcript, atCommit: Transcript, lines: seq<Line>,
                                                    i: nat, fileID: string)
    requires DistinctIDs(lines) && i < |lines| && Shows(atCommit, lines[i].id, fileID)
    ensures var id := lines[i].id;
            Shows(AcceptSync(atCommit, AvailableFiles(atRead), lines), id, fileID) <==>
              if id in atRead && atRead[id].available then FileText(atRead[id]) == fileID
              else lines[i].available && lines[i].fileID == fileID
  {
    SplitResyncRow(atRead, lines, i);
  }

  /** Over the whole window between the two statements: a line shown at the read keeps flag and file
      exactly if no handler meanwhile leaves it with another file. */
  lemma {:induction false} WindowKeepsMediaIff(tables: seq<Transcript>, ops: seq<Op>, lines: seq<Line>, i: nat,
                                               fileID: string)
    requires IsHistory(tables, ops) && DistinctIDs(lines) && i < |lines| && KeepsLine(ops, lines[i].id)
    requires Shows(tables[0], lines[i].id, fileID)
    ensures var id, latest := lines[i].id, LatestUpload(ops, lines[i].id, fileID);
            var after := AcceptSync(tables[|ops|], AvailableFiles(tables[0]), lines);
            && Shows(tables[|ops|], id, latest)
            && Shows(after, id, fileID)
            && (Shows(after, id, latest) <==> latest == fileID)
  {
    MediaSurvives(tables, ops, lines[i].id, fileID);
    SplitResyncRow(tables[0], lines, i);
  }

  /** So an upload that commits between the two statements is forgotten: the line's first one, with
      the flag, and a later one, whose file gives way to the older file. */
  lemma {:induction false} SplitResyncLosesUpload()
    ensures var line := Line(0, "", Content(0, "", false), false);
            var first: Transcript := map[0 := RowOf(line)];
            var uploadA := SetAvailable(first, 0, "A", true).value;
            var uploadB := SetAvailable(uploadA, 0, "B", true).value;
            && Shows(uploadA, 0, "A") && !AcceptSync(uploadA, AvailableFiles(first), [line])[0].available
            && Shows(uploadB, 0, "B") && Shows(AcceptSync(uploadB, AvailableFiles(uploadA), [line]), 0, "A")
  {
    var line := Line(0, "", Content(0, "", false), false);
    var first: Transcript := map[0 := RowOf(line)];
    var uploadA := SetAvailable(first, 0, "A", true).value;
    SplitResyncRow(first, [line], 0);
    SplitResyncRow(uploadA, [line], 0);
  }
}
