/**
 * internal/store/transcripts.go, seen for one stream: its rows as a finite map from line ID to row,
 * and every statement or transaction as one function of that map.
 */
module Transcripts {
  import opened Prelude

  /** What a line says; fixed once written. */
  datatype Content = Content(timestamp: int, segments: string, vodAccurate: bool)

  /** A stored row. file_id may be NULL. */
  datatype Row = Row(content: Content, fileID: Option<string>, available: bool)

  /** model.Line as the worker sends it. */
  datatype Line = Line(id: int, fileID: string, content: Content, available: bool)

  datatype StoreError = OutOfSync | NotFound | Conflict

  type Transcript = map<int, Row>

  function RowOf(line: Line): Row {
    Row(line.content, Some(line.fileID), line.available)
  }

  /** The text a scan of file_id yields: NULL reads as empty. */
  function FileText(row: Row): string {
    match row.fileID case Some(f) => f case None => ""
  }

  // ---------------------------------------------------------------- appends

  ghost predicate IsLast(t: Transcript, last: int) {
    if t == map[] then last == -1 else last in t && forall k :: k in t ==> k <= last
  }

  ghost function InsertNext(t: Transcript, last: int, line: Line): Result<Transcript, StoreError>
    requires IsLast(t, last)
  {
    if line.id == last + 1 then Ok(t[line.id := RowOf(line)]) else Err(OutOfSync)
  }

  // ---------------------------------------------------------------- replacement

  /** Inserting lines in order into an empty transcript; the primary key rejects a repeated ID. */
  function InsertAll(lines: seq<Line>): Result<Transcript, StoreError> {
    if lines == [] then Ok(map[])
    else
      var line := lines[|lines| - 1];
      match InsertAll(lines[..|lines| - 1])
      case Err(e) => Err(e)
      case Ok(t) => if line.id in t then Err(Conflict) else Ok(t[line.id := RowOf(line)])
  }

  ghost predicate DistinctIDs(lines: seq<Line>) {
    forall i, j :: 0 <= i < j < |lines| ==> lines[i].id != lines[j].id
  }

  ghost predicate HasID(lines: seq<Line>, id: int) {
    exists i :: 0 <= i < |lines| && lines[i].id == id
  }

  /** The table holds exactly these lines. */
  ghost predicate Holds(t: Transcript, lines: seq<Line>) {
    && (forall i :: 0 <= i < |lines| ==> lines[i].id in t && t[lines[i].id] == RowOf(lines[i]))
    && (forall k :: k in t ==> HasID(lines, k))
  }

  lemma {:induction false} HoldsSnoc(t: Transcript, lines: seq<Line>, line: Line)
    requires Holds(t, lines)
    ensures line.id in t <==> HasID(lines, line.id)
    ensures line.id !in t ==> Holds(t[line.id := RowOf(line)], lines + [line])
  {
    var all := lines + [line];
    forall k | k in t[line.id := RowOf(line)] ensures HasID(all, k) {
      if k == line.id {
        assert all[|lines|].id == k;
      } else {
        var i :| 0 <= i < |lines| && lines[i].id == k;
        assert all[i].id == k;
      }
    }
  }

  lemma {:induction false} DistinctSnoc(lines: seq<Line>, line: Line)
    ensures DistinctIDs(lines + [line]) <==> DistinctIDs(lines) && !HasID(lines, line.id)
  {
    var all := lines + [line];
    assert forall i :: 0 <= i < |lines| ==> all[i] == lines[i];
    assert all[|lines|] == line;
  }

  /** A replacement succeeds exactly on distinct IDs, and then stores exactly those lines. */
  lemma {:induction false} InsertAllMeaning(lines: seq<Line>)
    ensures InsertAll(lines).Ok? <==> DistinctIDs(lines)
    ensures InsertAll(lines).Ok? ==> Holds(InsertAll(lines).value, lines)
  {
    if lines != [] {
      var init, line := lines[..|lines| - 1], lines[|lines| - 1];
      assert lines == init + [line];
      InsertAllMeaning(init);
      DistinctSnoc(init, line);
      if InsertAll(init).Ok? {
        HoldsSnoc(InsertAll(init).value, init, line);
      }
    }
  }

  // ---------------------------------------------------------------- media flags

  ghost function SetAvailable(t: Transcript, id: int, fileID: string, flag: bool): Result<Transcript, StoreError> {
    if id in t then Ok(t[id := Row(t[id].content, Some(fileID), flag)]) else Err(NotFound)
  }

  /** Line ID to file ID of every line marked available (GetLastAvailableMediaFiles with limit -1). */
  function AvailableFiles(t: Transcript): (files: map<int, string>)
    ensures forall k :: k in files <==> k in t && t[k].available
  {
    map k | k in t && t[k].available :: FileText(t[k])
  }

  /** What syncHandler does to one line of the worker's copy. */
  function CarryLine(files: map<int, string>, line: Line): Line {
    if line.id in files then line.(available := true, fileID := files[line.id]) else line
  }

  function CarryOver(files: map<int, string>, lines: seq<Line>): (carried: seq<Line>)
    ensures |carried| == |lines|
    ensures forall i :: 0 <= i < |lines| ==> carried[i] == CarryLine(files, lines[i])
  {
    seq(|lines|, i requires 0 <= i < |lines| => CarryLine(files, lines[i]))
  }

  // ---------------------------------------------------------------- what the worker's requests store

  /** lineHandler: the flag is forced to false; on 409 nothing is stored. */
  ghost function AcceptLine(t: Transcript, last: int, line: Line): Result<Transcript, StoreError>
    requires IsLast(t, last)
  {
    InsertNext(t, last, line.(available := false))
  }

  /** syncHandler, with the flags it read earlier from the database, however old. */
  ghost function AcceptSync(t: Transcript, files: map<int, string>, lines: seq<Line>): Transcript {
    match InsertAll(CarryOver(files, lines)) case Ok(replaced) => replaced case Err(_) => t
  }

  // ---------------------------------------------------------------- file ID queries

  ghost predicate HasMedia(row: Row) {
    row.available && FileText(row) != ""
  }

  /** The rows the WHERE clause of the file ID queries keeps, by line ID. */
  ghost function Marked(t: Transcript, lo: int, hi: int): (ids: set<int>)
    ensures forall k :: k in ids <==> k in t && lo <= k <= hi && t[k].available
  {
    set k | k in t && lo <= k <= hi && t[k].available
  }

  ghost function MarkedEverywhere(t: Transcript): (ids: set<int>)
    ensures forall k :: k in ids <==> k in t && t[k].available
  {
    set k | k in t && t[k].available
  }

  predicate Stored(t: Transcript, ids: seq<int>) {
    forall i :: 0 <= i < |ids| ==> ids[i] in t
  }

  /** The file_id column of those rows. */
  function Column(t: Transcript, ids: seq<int>): (column: seq<Option<string>>)
    requires Stored(t, ids)
    ensures |column| == |ids| && forall i :: 0 <= i < |ids| ==> column[i] == t[ids[i]].fileID
  {
    seq(|ids|, i requires 0 <= i < |ids| => t[ids[i]].fileID)
  }

  /** scanFileIDs: keep the column's non-empty values. */
  function Scan(column: seq<Option<string>>): seq<string> {
    if column == [] then []
    else
      var last := column[|column| - 1];
      Scan(column[..|column| - 1]) + (if last.Some? && last.value != "" then [last.value] else [])
  }

  /** ORDER BY line_id ASC over a set of rows, scanned. */
  ghost function Query(t: Transcript, ids: set<int>): seq<string>
    requires forall k :: k in ids ==> k in t
  {
    var order := Listing(ids);
    assert forall i :: 0 <= i < |order| ==> order[i] in ids;
    Scan(Column(t, order))
  }

  /** GetFileIDsInRange. */
  ghost function FilesInRange(t: Transcript, lo: int, hi: int): seq<string> {
    Query(t, Marked(t, lo, hi))
  }

  /** GetAllMediaFileIDs. */
  ghost function AllFiles(t: Transcript): seq<string> {
    Query(t, MarkedEverywhere(t))
  }

  /** CountTranscriptMedia. */
  ghost function CountMedia(t: Transcript): (int, int) {
    (|t|, |WithMedia(t)|)
  }

  ghost function WithMedia(t: Transcript): (ids: set<int>)
    ensures forall k :: k in ids <==> k in t && HasMedia(t[k])
  {
    set k | k in t && HasMedia(t[k])
  }

  // ---------------------------------------------------------------- what the queries return

  ghost function FilesAt(t: Transcript, ids: seq<int>): (files: seq<string>)
    requires Stored(t, ids)
    ensures |files| == |ids| && forall i :: 0 <= i < |ids| ==> files[i] == FileText(t[ids[i]])
  {
    seq(|ids|, i requires 0 <= i < |ids| => FileText(t[ids[i]]))
  }

  lemma {:induction false} ScanSnoc(t: Transcript, ids: seq<int>, id: int)
    requires Stored(t, ids) && id in t
    ensures Stored(t, ids + [id])
    ensures Scan(Column(t, ids + [id])) ==
              Scan(Column(t, ids)) + (if FileText(t[id]) != "" then [FileText(t[id])] else [])
  {
    var column := Column(t, ids + [id]);
    assert column == Column(t, ids) + [t[id].fileID];
    assert column[..|ids|] == Column(t, ids);
  }

  lemma {:induction false} FilesAtSnoc(t: Transcript, ids: seq<int>, id: int)
    requires Stored(t, ids) && id in t
    ensures Stored(t, ids + [id])
    ensures FilesAt(t, ids + [id]) == FilesAt(t, ids) + [FileText(t[id])]
  {
  }

  /** A scan drops exactly the rows with an empty file ID and keeps the order of the rest. */
  lemma {:induction false} ScanKeeps(t: Transcript, ids: seq<int>) returns (kept: seq<int>)
    requires Ascending(ids) && Stored(t, ids)
    ensures Ascending(kept) && Stored(t, kept)
    ensures forall k :: k in kept <==> k in ids && FileText(t[k]) != ""
    ensures Scan(Column(t, ids)) == FilesAt(t, kept)
  {
    if ids == [] {
      return [];
    }
    var init, last := ids[..|ids| - 1], ids[|ids| - 1];
    assert ids == init + [last];
    kept := ScanKeeps(t, init);
    ScanSnoc(t, init, last);
    if FileText(t[last]) != "" {
      FilesAtSnoc(t, kept, last);
      AscendingSnoc(init, last, kept);
      kept := kept + [last];
    }
  }

  /** What was kept before the last ID is below it. */
  lemma {:induction false} AscendingSnoc(init: seq<int>, last: int, kept: seq<int>)
    requires Ascending(init + [last]) && Ascending(kept)
    requires forall k :: k in kept ==> k in init
    ensures Ascending(kept + [last])
  {
    forall i | 0 <= i < |kept| ensures kept[i] < last {
      assert kept[i] in kept;
      var j :| 0 <= j < |init| && init[j] == kept[i];
      assert (init + [last])[j] < (init + [last])[|init|];
    }
  }

  lemma {:induction false} ListingStored(t: Transcript, ids: set<int>)
    requires forall k :: k in ids ==> k in t
    ensures Stored(t, Listing(ids))
  {
    forall i | 0 <= i < |Listing(ids)| ensures Listing(ids)[i] in t {
      assert Listing(ids)[i] in ids;
    }
  }

  lemma {:induction false} QueryMeaning(t: Transcript, ids: set<int>, media: set<int>)
    requires forall k :: k in ids ==> k in t
    requires forall k :: k in media <==> k in ids && FileText(t[k]) != ""
    ensures Stored(t, Listing(media))
    ensures Query(t, ids) == FilesAt(t, Listing(media))
  {
    ListingStored(t, ids);
    var kept := ScanKeeps(t, Listing(ids));
    ListingUnique(kept, media);
  }

  ghost function MediaLines(t: Transcript, lo: int, hi: int): (ids: set<int>)
    ensures forall k :: k in ids <==> k in t && lo <= k <= hi && HasMedia(t[k])
  {
    set k | k in t && lo <= k <= hi && HasMedia(t[k])
  }

  /** The range query lists the file IDs of the lines in range that have media, by line ID. */
  lemma {:induction false} FilesInRangeMeaning(t: Transcript, lo: int, hi: int)
    ensures Stored(t, Listing(MediaLines(t, lo, hi)))
    ensures FilesInRange(t, lo, hi) == FilesAt(t, Listing(MediaLines(t, lo, hi)))
  {
    QueryMeaning(t, Marked(t, lo, hi), MediaLines(t, lo, hi));
  }

  lemma {:induction false} FilesAtAppend(t: Transcript, a: seq<int>, b: seq<int>)
    requires Stored(t, a) && Stored(t, b)
    ensures FilesAt(t, a + b) == FilesAt(t, a) + FilesAt(t, b)
  {
  }

  /** Cutting a range cuts its file list. */
  lemma {:induction false} FilesSplit(t: Transcript, a: int, b: int, c: int)
    requires a <= b + 1 && b <= c
    ensures FilesInRange(t, a, c) == FilesInRange(t, a, b) + FilesInRange(t, b + 1, c)
  {
    FilesInRangeMeaning(t, a, c);
    FilesInRangeMeaning(t, a, b);
    FilesInRangeMeaning(t, b + 1, c);
    MediaLinesSplit(t, a, b, c);
    FilesAtAppend(t, Listing(MediaLines(t, a, b)), Listing(MediaLines(t, b + 1, c)));
  }

  lemma {:induction false} MediaLinesSplit(t: Transcript, a: int, b: int, c: int)
    requires a <= b + 1 && b <= c
    ensures Listing(MediaLines(t, a, c)) == Listing(MediaLines(t, a, b)) + Listing(MediaLines(t, b + 1, c))
  {
    SameElements(MediaLines(t, a, c), MediaLines(t, a, b) + MediaLines(t, b + 1, c));
    ListingSplits(MediaLines(t, a, c), MediaLines(t, a, b), MediaLines(t, b + 1, c), b);
  }

  /** The full list is the files of the lines with media, by line ID. */
  lemma {:induction false} AllFilesMeaning(t: Transcript)
    ensures Stored(t, Listing(WithMedia(t)))
    ensures AllFiles(t) == FilesAt(t, Listing(WithMedia(t)))
  {
    QueryMeaning(t, MarkedEverywhere(t), WithMedia(t));
  }

  /** The count the admin page shows is the number of chunks a full render merges, and the number
      of lines it cannot include is never negative. */
  lemma {:induction false} CountIsListLength(t: Transcript)
    ensures CountMedia(t).1 == |AllFiles(t)|
    ensures CountMedia(t).1 <= CountMedia(t).0 == |t|
  {
    AllFilesMeaning(t);
    SubsetSize(WithMedia(t), t.Keys);
    assert |t| == |t.Keys|;
  }

  ghost predicate EveryLineHasMedia(t: Transcript, lo: int, hi: int) {
    forall k :: lo <= k <= hi ==> k in t && HasMedia(t[k])
  }

  /** The k-th file is that of line lo + k. */
  ghost predicate FilesInOrder(t: Transcript, lo: int, files: seq<string>) {
    forall k :: 0 <= k < |files| ==> IsFileOf(t, lo + k, files[k])
  }

  ghost predicate IsFileOf(t: Transcript, line: int, file: string) {
    line in t && file == FileText(t[line])
  }

  lemma {:induction false} FullRange(t: Transcript, lo: int, hi: int)
    requires lo <= hi
    ensures |MediaLines(t, lo, hi)| <= hi - lo + 1
    ensures |MediaLines(t, lo, hi)| == hi - lo + 1 <==> EveryLineHasMedia(t, lo, hi)
    ensures |MediaLines(t, lo, hi)| == hi - lo + 1 ==> MediaLines(t, lo, hi) == Range(lo, hi + 1)
  {
    var ids, range := MediaLines(t, lo, hi), Range(lo, hi + 1);
    SubsetSize(ids, range);
    if |ids| == |range| {
      assert forall k :: lo <= k <= hi ==> k in range;
    }
    if EveryLineHasMedia(t, lo, hi) {
      SameElements(ids, range);
    }
  }

  /** The range query answers one file per line in range with media. */
  lemma {:induction false} FilesPerMediaLine(t: Transcript, lo: int, hi: int)
    ensures |FilesInRange(t, lo, hi)| == |MediaLines(t, lo, hi)|
  {
    FilesInRangeMeaning(t, lo, hi);
  }

  lemma {:induction false} FullRangeInOrder(t: Transcript, lo: int, hi: int)
    requires lo <= hi && MediaLines(t, lo, hi) == Range(lo, hi + 1)
    ensures FilesInOrder(t, lo, FilesInRange(t, lo, hi))
  {
    FilesInRangeMeaning(t, lo, hi);
    ConsecutiveListing(MediaLines(t, lo, hi), lo, hi + 1);
    FilesOfRangeInOrder(t, lo, Listing(MediaLines(t, lo, hi)), FilesInRange(t, lo, hi));
  }

  lemma {:induction false} ConsecutiveListing(ids: set<int>, lo: int, hi: int)
    requires lo <= hi && ids == Range(lo, hi)
    ensures Consecutive(Listing(ids), lo)
  {
    ListingOfRange(lo, hi);
  }

  ghost predicate Consecutive(ids: seq<int>, lo: int) {
    forall k :: 0 <= k < |ids| ==> ids[k] == lo + k
  }

  /** Pigeonhole: as many file IDs as line numbers in the range exactly when every line of the
      range is stored with media; and then the files are those lines' files in line order. */
  lemma {:induction false} FullCountIsEveryLine(t: Transcript, lo: int, hi: int)
    requires lo <= hi
    ensures |FilesInRange(t, lo, hi)| == hi - lo + 1 <==> EveryLineHasMedia(t, lo, hi)
    ensures |FilesInRange(t, lo, hi)| == hi - lo + 1 ==> FilesInOrder(t, lo, FilesInRange(t, lo, hi))
  {
    FilesPerMediaLine(t, lo, hi);
    FullRange(t, lo, hi);
    if |MediaLines(t, lo, hi)| == hi - lo + 1 {
      FullRangeInOrder(t, lo, hi);
    }
  }

  lemma {:induction false} FilesOfRangeInOrder(t: Transcript, lo: int, ids: seq<int>, files: seq<string>)
    requires Stored(t, ids) && Consecutive(ids, lo) && files == FilesAt(t, ids)
    ensures FilesInOrder(t, lo, files)
  {
    forall k | 0 <= k < |files| ensures IsFileOf(t, lo + k, files[k]) {
      assert ids[k] == lo + k && ids[k] in t;
    }
  }

  /** scanFileIDs as the loop it is. */
  method ScanFileIDs(rows: seq<Option<string>>) returns (fileIDs: seq<string>)
    ensures fileIDs == Scan(rows)
  {
    fileIDs := [];
    for i := 0 to |rows|
      invariant fileIDs == Scan(rows[..i])
    {
      assert rows[..i + 1][..i] == rows[..i];
      if rows[i].Some? && rows[i].value != "" {
        fileIDs := fileIDs + [rows[i].value];
      }
    }
    assert rows[..|rows|] == rows;
  }
}
