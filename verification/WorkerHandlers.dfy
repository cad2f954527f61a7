/**
 * internal/store/transcripts.go and internal/server/handlers_worker.go: the transcripts table and
 * the worker's requests as the updates they are, each without interference.
 */
module WorkerHandlers {
  import opened Prelude
  import opened Transcripts
  import opened WsEvents
  import MediaFlags

  /** The primary key of the transcripts table. */
  datatype LineKey = LineKey(channel: string, stream: string, line: int)

  type Rows = map<LineKey, Row>

  /** One stream's rows. */
  ghost function Slice(rows: Rows, channel: string, stream: string): (t: Transcript)
    ensures forall id :: id in t <==> LineKey(channel, stream, id) in rows
    ensures forall id :: id in t ==> t[id] == rows[LineKey(channel, stream, id)]
  {
    map k | k in rows && k.channel == channel && k.stream == stream :: k.line := rows[k]
  }

  /** Every other stream's rows are the same. */
  ghost predicate SameElsewhere(a: Rows, b: Rows, channel: string, stream: string) {
    forall k: LineKey :: k.channel != channel || k.stream != stream ==>
      (k in a <==> k in b) && (k in a ==> a[k] == b[k])
  }

  lemma {:induction false} SliceUpdate(rows: Rows, channel: string, stream: string, id: int, row: Row)
    ensures Slice(rows[LineKey(channel, stream, id) := row], channel, stream) == Slice(rows, channel, stream)[id := row]
  {
    SameMap(Slice(rows[LineKey(channel, stream, id) := row], channel, stream), Slice(rows, channel, stream)[id := row]);
  }

  lemma UpdateElsewhere(a: Rows, b: Rows, channel: string, stream: string, id: int, row: Row)
    requires SameElsewhere(a, b, channel, stream)
    ensures SameElsewhere(a[LineKey(channel, stream, id) := row], b, channel, stream)
  {
  }

  /** DELETE of one stream's rows. */
  function Deleted(rows: Rows, channel: string, stream: string): (left: Rows)
    ensures SameElsewhere(left, rows, channel, stream) && Slice(left, channel, stream) == map[]
  {
    var left := map k | k in rows && (k.channel != channel || k.stream != stream) :: rows[k];
    SameMap(Slice(left, channel, stream), map[]);
    left
  }

  class TranscriptTable {
    var rows: Rows

    ghost function Of(channel: string, stream: string): Transcript
      reads this
    {
      Slice(rows, channel, stream)
    }

    /** ORDER BY line_id DESC LIMIT 1, or -1. */
    method LastLineID(channel: string, stream: string) returns (last: int)
      ensures IsLast(Of(channel, stream), last)
    {
      var ids := set k | k in rows && k.channel == channel && k.stream == stream :: k.line;
      SameElements(ids, Of(channel, stream).Keys);
      if ids == {} { return -1; }
      MaximumExists(ids);
      last :| last in ids && IsMaximum(ids, last);
      assert last in Of(channel, stream);
    }

    method InsertNextLine(channel: string, stream: string, line: Line)
      returns (r: Result<(), StoreError>, ghost last: int)
      modifies this
      ensures SameElsewhere(rows, old(rows), channel, stream)
      ensures IsLast(old(Of(channel, stream)), last)
      ensures match InsertNext(old(Of(channel, stream)), last, line)
              case Ok(t) => r == Ok(()) && Of(channel, stream) == t
              case Err(e) => r == Err(e) && rows == old(rows)
    {
      var id := LastLineID(channel, stream);
      last := id;
      if line.id != id + 1 { return Err(OutOfSync), last; }
      SliceUpdate(rows, channel, stream, line.id, RowOf(line));
      rows := rows[LineKey(channel, stream, line.id) := RowOf(line)];
      return Ok(()), last;
    }

    /** One transaction: a primary key conflict rolls everything back. */
    method ReplaceTranscript(channel: string, stream: string, lines: seq<Line>) returns (r: Result<(), StoreError>)
      modifies this
      ensures SameElsewhere(rows, old(rows), channel, stream)
      ensures match InsertAll(lines)
              case Ok(t) => r == Ok(()) && Of(channel, stream) == t
              case Err(e) => r.Err? && rows == old(rows)
    {
      var tx := Deleted(rows, channel, stream);
      for i := 0 to |lines|
        invariant rows == old(rows) && Inserted(tx, rows, channel, stream, lines, i)
      {
        InsertOne(tx, rows, channel, stream, lines, i);
        var key := LineKey(channel, stream, lines[i].id);
        if key in tx { return Err(Conflict); }
        tx := tx[key := RowOf(lines[i])];
      }
      assert lines[..|lines|] == lines;
      rows := tx;
      return Ok(());
    }

    method SetMediaAvailable(channel: string, stream: string, id: int, fileID: string, flag: bool)
      returns (r: Result<(), StoreError>)
      modifies this
      ensures SameElsewhere(rows, old(rows), channel, stream)
      ensures match SetAvailable(old(Of(channel, stream)), id, fileID, flag)
              case Ok(t) => r == Ok(()) && Of(channel, stream) == t
              case Err(e) => r == Err(e) && rows == old(rows)
    {
      var key := LineKey(channel, stream, id);
      if key !in rows { return Err(NotFound); }
      var row := Row(rows[key].content, Some(fileID), flag);
      SliceUpdate(rows, channel, stream, id, row);
      rows := rows[key := row];
      return Ok(());
    }

    /** GetLastAvailableMediaFiles without a limit. */
    method GetAvailableFiles(channel: string, stream: string) returns (files: map<int, string>)
      ensures files == AvailableFiles(Of(channel, stream))
    {
      files := map k | k in rows && k.channel == channel && k.stream == stream && rows[k].available
               :: k.line := FileText(rows[k]);
      SameMap(files, AvailableFiles(Of(channel, stream)));
    }
  }

  /** The transaction after i of the inserts. */
  ghost predicate Inserted(tx: Rows, rows: Rows, channel: string, stream: string, lines: seq<Line>, i: nat)
    requires i <= |lines|
  {
    SameElsewhere(tx, rows, channel, stream) && InsertAll(lines[..i]) == Ok(Slice(tx, channel, stream))
  }

  lemma {:induction false} InsertOne(tx: Rows, rows: Rows, channel: string, stream: string, lines: seq<Line>, i: nat)
    requires i < |lines| && Inserted(tx, rows, channel, stream, lines, i)
    ensures var key := LineKey(channel, stream, lines[i].id);
            if key in tx then InsertAll(lines).Err?
            else Inserted(tx[key := RowOf(lines[i])], rows, channel, stream, lines, i + 1)
  {
    assert lines[..i + 1][..i] == lines[..i];
    if LineKey(channel, stream, lines[i].id) in tx {
      ConflictStays(lines, i + 1);
    } else {
      SliceUpdate(tx, channel, stream, lines[i].id, RowOf(lines[i]));
      UpdateElsewhere(tx, rows, channel, stream, lines[i].id, RowOf(lines[i]));
    }
  }

  lemma {:induction false} ConflictStays(lines: seq<Line>, n: nat)
    requires n <= |lines| && InsertAll(lines[..n]).Err?
    ensures InsertAll(lines).Err?
    decreases |lines| - n
  {
    if n < |lines| {
      assert lines[..n + 1][..n] == lines[..n];
      ConflictStays(lines, n + 1);
    } else {
      assert lines[..n] == lines;
    }
  }

  // ---------------------------------------------------------------- requests

  datatype Status = OK | OutOfSyncAnswer | ServerError

  /** The line is stored as it came but without media, next to the lines there were. */
  ghost predicate IsPosted(t: Transcript, u: Transcript, line: Line) {
    && line.id !in t && line.id in u
    && u[line.id].content == line.content && FileText(u[line.id]) == line.fileID && !u[line.id].available
    && forall id :: id != line.id ==> (id in u <==> id in t) && (id in u ==> u[id] == t[id])
  }

  /** lineHandler: the flag is forced off, a mismatch answers 409, an accepted line is broadcast. */
  method LineHandler(table: TranscriptTable, channel: string, stream: string, data: Line, dbFails: bool)
    returns (status: Status, broadcast: seq<Message>, ghost last: int)
    modifies table
    ensures SameElsewhere(table.rows, old(table.rows), channel, stream)
    ensures dbFails ==> status == ServerError
    ensures status != OK ==> table.rows == old(table.rows) && broadcast == []
    ensures !dbFails ==> IsLast(old(table.Of(channel, stream)), last)
    ensures !dbFails ==>
              match AcceptLine(old(table.Of(channel, stream)), last, data)
              case Ok(t) => status == OK && table.Of(channel, stream) == t && broadcast == [NewLineOf(data)]
              case Err(_) => status == OutOfSyncAnswer
    ensures status == OK ==>
              && IsPosted(old(table.Of(channel, stream)), table.Of(channel, stream), data)
              && broadcast == [NewLine(data.id, data.content)]
    ensures !dbFails ==>
              MediaFlags.Possible(old(table.Of(channel, stream)),
                                  MediaFlags.AppendLine(data), table.Of(channel, stream))
  {
    if dbFails { return ServerError, [], -1; }
    var line := data.(available := false);
    var r;
    r, last := table.InsertNextLine(channel, stream, line);
    if r == Err(OutOfSync) {
      return OutOfSyncAnswer, [], last;
    }
    return OK, [NewLineOf(line)], last;
  }

  /** The loop of syncHandler over the decoded lines. */
  method CarryFlags(lines: array<Line>, files: map<int, string>)
    modifies lines
    ensures lines[..] == CarryOver(files, old(lines[..]))
  {
    for i := 0 to lines.Length
      invariant forall j :: 0 <= j < i ==> lines[j] == CarryLine(files, old(lines[j]))
      invariant forall j :: i <= j < lines.Length ==> lines[j] == old(lines[j])
    {
      if lines[i].id in files {
        lines[i] := lines[i].(available := true, fileID := files[lines[i].id]);
      }
    }
  }

  /** The store calls of a resync that fail. */
  datatype SyncFaults = SyncFaults(upsert: bool, flags: bool, replace: bool, lastLine: bool)

  /** The refresh sent to viewers after a resync: the last stored line, if there is one to read. */
  ghost predicate Refreshes(t: Transcript, readFails: bool, broadcast: seq<Message>) {
    if readFails || t == map[] then broadcast == []
    else exists last :: IsLast(t, last) && last in t && broadcast == [NewLine(last, t[last].content)]
  }

  /** syncHandler: flags are read, carried over, and the rows replaced. If reading the flags fails
      the handler goes on without them. */
  method SyncHandler(table: TranscriptTable, channel: string, stream: string, lines: array<Line>, f: SyncFaults)
    returns (status: Status, broadcast: seq<Message>)
    modifies table, lines
    ensures SameElsewhere(table.rows, old(table.rows), channel, stream)
    ensures status == if !f.upsert && !f.replace && DistinctIDs(old(lines[..])) then OK else ServerError
    ensures status != OK ==> table.rows == old(table.rows) && broadcast == []
    ensures status == OK ==>
              var files := if f.flags then map[] else AvailableFiles(old(table.Of(channel, stream)));
              && table.Of(channel, stream) == AcceptSync(old(table.Of(channel, stream)), files, old(lines[..]))
              && Refreshes(table.Of(channel, stream), f.lastLine, broadcast)
              && (!f.flags ==> MediaFlags.Possible(old(table.Of(channel, stream)),
                                                   MediaFlags.Resync(old(lines[..])), table.Of(channel, stream)))
  {
    if f.upsert { return ServerError, []; }
    var files: map<int, string> := map[];
    if !f.flags {
      files := table.GetAvailableFiles(channel, stream);
    }
    SyncSucceedsIff(files, lines[..]);
    CarryFlags(lines, files);
    status, broadcast := Install(table, channel, stream, lines[..], f);
  }

  /** The replacement and the refresh after it. */
  method Install(table: TranscriptTable, channel: string, stream: string, lines: seq<Line>, f: SyncFaults)
    returns (status: Status, broadcast: seq<Message>)
    modifies table
    ensures SameElsewhere(table.rows, old(table.rows), channel, stream)
    ensures status == if !f.replace && InsertAll(lines).Ok? then OK else ServerError
    ensures status != OK ==> table.rows == old(table.rows) && broadcast == []
    ensures status == OK ==>
              && InsertAll(lines) == Ok(table.Of(channel, stream))
              && Refreshes(table.Of(channel, stream), f.lastLine, broadcast)
  {
    if f.replace { return ServerError, []; }
    var r := table.ReplaceTranscript(channel, stream, lines);
    if r.Err? { return ServerError, []; }
    broadcast := Refresh(table, channel, stream, f.lastLine);
    return OK, broadcast;
  }

  /** broadcastNewLine without a line. */
  method Refresh(table: TranscriptTable, channel: string, stream: string, readFails: bool)
    returns (broadcast: seq<Message>)
    ensures Refreshes(table.Of(channel, stream), readFails, broadcast)
  {
    if readFails { return []; }
    var last := table.LastLineID(channel, stream);
    var key := LineKey(channel, stream, last);
    if key !in table.rows {
      return [];
    }
    assert last in table.Of(channel, stream);
    return [NewLine(last, table.rows[key].content)];
  }

  lemma {:induction false} SyncSucceedsIff(files: map<int, string>, lines: seq<Line>)
    ensures InsertAll(CarryOver(files, lines)).Ok? <==> DistinctIDs(lines)
  {
    var carried := CarryOver(files, lines);
    assert forall i :: 0 <= i < |lines| ==> carried[i].id == lines[i].id;
    InsertAllMeaning(carried);
  }

  /** The rows the commit finds when it succeeds or gives up: with the line that arrives meanwhile,
      if the first attempt did not find its own. */
  ghost function AtCommit(t: Transcript, last: int, id: int, meanwhile: Option<Line>): Transcript
    requires IsLast(t, last)
  {
    if id in t || meanwhile.None? then t
    else match AcceptLine(t, last, meanwhile.value) case Ok(u) => u case Err(_) => t
  }

  /** The commit of mediaHandler: one retry covers a line that arrives meanwhile; another store
      error is not retried. */
  method CommitMedia(table: TranscriptTable, channel: string, stream: string, id: int, fileID: string,
                     meanwhile: Option<Line>,
                     dbFails: bool, retryFails: bool)
    returns (status: Status, ghost last: int)
    modifies table
    ensures SameElsewhere(table.rows, old(table.rows), channel, stream)
    ensures IsLast(old(table.Of(channel, stream)), last)
    ensures dbFails ==> status == ServerError && table.rows == old(table.rows)
    ensures !dbFails ==>
              var t := AtCommit(old(table.Of(channel, stream)), last, id, meanwhile);
              if id !in t || (id !in old(table.Of(channel, stream)) && retryFails)
              then status == ServerError && table.Of(channel, stream) == t
              else status == OK && Ok(table.Of(channel, stream)) == SetAvailable(t, id, fileID, true)
    ensures status == OK ==> MediaFlags.Shows(table.Of(channel, stream), id, fileID)
  {
    last := table.LastLineID(channel, stream);
    if dbFails { return ServerError, last; }
    var r := table.SetMediaAvailable(channel, stream, id, fileID, true);
    if r == Err(NotFound) {
      Wait(table, channel, stream, id, meanwhile, last);
      if retryFails { return ServerError, last; }
      r := table.SetMediaAvailable(channel, stream, id, fileID, true);
    }
    return if r.Ok? then OK else ServerError, last;
  }

  /** The half second before the retry. */
  method Wait(table: TranscriptTable, channel: string, stream: string, id: int, meanwhile: Option<Line>,
              ghost last: int)
    requires id !in table.Of(channel, stream) && IsLast(table.Of(channel, stream), last)
    modifies table
    ensures SameElsewhere(table.rows, old(table.rows), channel, stream)
    ensures table.Of(channel, stream) == AtCommit(old(table.Of(channel, stream)), last, id, meanwhile)
  {
    if meanwhile.Some? {
      var s, sent, l := LineHandler(table, channel, stream, meanwhile.value, false);
      LastUnique(old(table.Of(channel, stream)), last, l);
    }
  }

  lemma LastUnique(t: Transcript, a: int, b: int)
    requires IsLast(t, a) && IsLast(t, b)
    ensures a == b
  {
  }
}
