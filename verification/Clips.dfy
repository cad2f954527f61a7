/**
 * internal/server/handlers_public.go: the part of postClipHandler that selects and merges a clip's
 * chunks, on top of the range query and the merge.
 */
module Clips {
  import opened Prelude
  import opened Transcripts
  import opened Chunks
  import opened Streams
  import M = ChunkMerge

  const MAX_CLIP_SIZE: int := 40

  datatype ClipOutcome =
    | VideoDisabled | InvalidType | InvalidRange | DatabaseError | MissingMedia
    | MergeError(e: M.MergeError)
    | Clip(bytes: Bytes, ext: string)

  /** The container asked for; None for an unknown one. */
  function ClipExtension(requested: string): Option<string> {
    if requested == "mp4" then Some(".mp4")
    else if requested == "mp3" then Some(".mp3")
    else if requested == "m4a" || requested == "" then Some(".m4a")
    else None
  }

  /** The line IDs from `start` to `end`. */
  function LinesBetween(start: int, end: int): (lines: seq<int>)
    requires start <= end + 1
    ensures |lines| == end - start + 1 && forall k :: 0 <= k < |lines| ==> lines[k] == start + k
  {
    seq(end - start + 1, k => start + k)
  }

  /** What the looked-up row says; a stream that is not stored has no media. */
  function MediaTypeOf(row: Option<Stream>): string {
    match row case Some(st) => st.mediaType case None => "none"
  }

  /** The answer is decided by the type, the shape of the range, and whether every line of it is
      stored with media; a clip then is the raw chunks of exactly these lines, in order and without
      a gap, whatever the schedule of the merge, and there is one unless a chunk cannot be read or
      appended or the request is cancelled. */
  method PostClip(row: Result<Option<Stream>, ()>, requested: string, start: int, end: int,
                  t: Transcript, listed: Result<seq<string>, ()>, objects: map<string, Bytes>,
                  channel: string, stream: string, job: M.Job, gone: bool, schedule: (nat, M.State) -> M.Step)
    returns (r: ClipOutcome)
    requires listed.Ok? ==> listed.value == FilesInRange(t, start, end) == job.fileIDs
    requires job.Valid() && Reads(job, objects, channel, stream)
    ensures row.Err? ==> r.DatabaseError?
    ensures row.Ok? ==>
              var isVideo := row.value.Some? && row.value.value.mediaType == "video";
              var allowed := requested in ["mp3", "m4a", ""] || (requested == "mp4" && isVideo);
              var inRange := 0 <= start <= end && end - start < 40;
              && (r.VideoDisabled? <==> requested == "mp4" && !isVideo)
              && (r.InvalidType? <==> requested !in ["mp4", "mp3", "m4a", ""])
              && (r.InvalidRange? <==> allowed && !inRange)
              && (r.DatabaseError? <==> allowed && inRange && listed.Err?)
              && (r.MissingMedia? <==> allowed && inRange && listed.Ok? && !EveryLineHasMedia(t, start, end))
    ensures r.Clip? ==>
              && 0 <= start <= end && end - start < 40
              && r.bytes == ChunksOf(t, objects, channel, stream, LinesBetween(start, end))
              && r.ext == (if requested == "mp4" then ".mp4" else if requested == "mp3" then ".mp3" else ".m4a")
    ensures r.MergeError? && !gone && M.NeverCancels(schedule) ==> M.SequentialMerge(job) == M.Failed(r.e)
  {
    if row.Err? { return DatabaseError; }
    var mediaType := MediaTypeOf(row.value);
    if requested == "mp4" && mediaType != "video" { return VideoDisabled; }
    var ext := ClipExtension(requested);
    if ext.None? { return InvalidType; }
    if start < 0 || end < start || end - start >= MAX_CLIP_SIZE { return InvalidRange; }
    r := ClipLines(start, end, t, listed, objects, channel, stream, job, gone, schedule, ext.value);
  }

  lemma {:induction false} CountCheck(t: Transcript, start: int, end: int, fileIDs: seq<string>)
    requires start <= end && fileIDs == FilesInRange(t, start, end)
    ensures |fileIDs| == end - start + 1 <==> EveryLineHasMedia(t, start, end)
    ensures |fileIDs| == end - start + 1 ==> FilesOfLines(t, LinesBetween(start, end), fileIDs)
  {
    FullCountIsEveryLine(t, start, end);
  }

  /** The part from the range query on. */
  method ClipLines(start: int, end: int, t: Transcript, listed: Result<seq<string>, ()>, objects: map<string, Bytes>,
                   channel: string, stream: string, job: M.Job, gone: bool,
                   schedule: (nat, M.State) -> M.Step, ext: string)
    returns (r: ClipOutcome)
    requires start <= end
    requires listed.Ok? ==> listed.value == FilesInRange(t, start, end) == job.fileIDs
    requires job.Valid() && Reads(job, objects, channel, stream)
    ensures r.DatabaseError? || r.MissingMedia? || r.MergeError? || r.Clip?
    ensures r.DatabaseError? <==> listed.Err?
    ensures r.MissingMedia? <==> listed.Ok? && !EveryLineHasMedia(t, start, end)
    ensures r.Clip? ==> r == Clip(ChunksOf(t, objects, channel, stream, LinesBetween(start, end)), ext)
    ensures r.MergeError? && !gone && M.NeverCancels(schedule) ==> M.SequentialMerge(job) == M.Failed(r.e)
  {
    if listed.Err? { return DatabaseError; }
    CountCheck(t, start, end, job.fileIDs);
    if |listed.value| != end - start + 1 { return MissingMedia; }
    r := MergeLines(t, LinesBetween(start, end), objects, channel, stream, job, gone, schedule, ext);
  }

  /** The merge, once every line of the range is known to have media. */
  method MergeLines(t: Transcript, ghost lines: seq<int>, ghost objects: map<string, Bytes>, channel: string,
                    stream: string,
                    job: M.Job, gone: bool, schedule: (nat, M.State) -> M.Step, ext: string)
    returns (r: ClipOutcome)
    requires job.Valid() && FilesOfLines(t, lines, job.fileIDs) && Reads(job, objects, channel, stream)
    ensures r.Clip? || r.MergeError?
    ensures r.Clip? ==> r == Clip(ChunksOf(t, objects, channel, stream, lines), ext)
    ensures r.MergeError? && !gone && M.NeverCancels(schedule) ==> M.SequentialMerge(job) == M.Failed(r.e)
  {
    var outcome, merged := M.MergeRawAudio(job, gone, schedule);
    if outcome.Failed? { return MergeError(outcome.error); }
    MergeIsChunks(t, objects, channel, stream, lines, job);
    return Clip(outcome.bytes, ext);
  }
}
