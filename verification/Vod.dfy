/**
 * internal/server/vod.go: the job registry, the request that may start a build, and the build, as
 * the objects and sequential updates they are. VodRuns interleaves them.
 */
module Vod {
  import opened Prelude
  import opened Transcripts
  import opened Streams
  import opened StorageKeys
  import opened Chunks
  import ChunkMerge

  datatype JobState = NoJob | Running | Done | Failed

  datatype Phase = NoPhase | Merging | Encoding | Uploading

  class VodJob {
    var state: JobState
    var phase: Phase
    var failure: string

    constructor ()
      ensures state == Running && phase == Merging && failure == ""
    {
      state, phase, failure := Running, Merging, "";
    }

    method SetPhase(p: Phase)
      modifies this`phase
      ensures phase == p
    {
      phase := p;
    }

    method Finish(error: Option<string>)
      modifies this
      ensures phase == NoPhase
      ensures state == if error.Some? then Failed else Done
      ensures failure == if error.Some? then error.value else old(failure)
    {
      phase := NoPhase;
      if error.Some? {
        state, failure := Failed, error.value;
      } else {
        state := Done;
      }
    }
  }

  class VodRegistry {
    var jobs: map<string, VodJob>

    constructor ()
      ensures jobs == map[]
    {
      jobs := map[];
    }

    /** Whether a stream's tracked build is in flight. */
    predicate InFlight(channel: string, stream: string)
      reads this, jobs.Values
    {
      VodJobKey(channel, stream) in jobs && jobs[VodJobKey(channel, stream)].state == Running
    }

    /** Joins the running job, or installs a fresh running one that only the caller may build. */
    method Claim(channel: string, stream: string) returns (job: VodJob, started: bool)
      modifies this
      ensures started == !old(InFlight(channel, stream))
      ensures started ==> fresh(job) && job.state == Running && jobs == old(jobs)[VodJobKey(channel, stream) := job]
      ensures !started ==> jobs == old(jobs) && job == jobs[VodJobKey(channel, stream)]
      ensures InFlight(channel, stream) && jobs[VodJobKey(channel, stream)] == job
    {
      var key := VodJobKey(channel, stream);
      if key in jobs && jobs[key].state == Running {
        return jobs[key], false;
      }
      job := new VodJob();
      jobs := jobs[key := job];
      return job, true;
    }

    /** Drops the record of one stream and, as keys are injective, of no other. */
    method Forget(channel: string, stream: string)
      modifies this
      ensures !InFlight(channel, stream)
      ensures forall c, s :: Named(c, s) && Named(channel, stream) && (c != channel || s != stream) ==>
                InFlight(c, s) == old(InFlight(c, s))
    {
      var key := VodJobKey(channel, stream);
      jobs := map k | k in jobs && k != key :: jobs[k];
      forall c, s | Named(c, s) && Named(channel, stream) && (c != channel || s != stream)
        ensures VodJobKey(c, s) != key
      {
        VodJobKeyInjective(c, s, channel, stream);
      }
    }
  }

  // ---------------------------------------------------------------- a request

  datatype Refusal = UnknownStream | StillLive | NoMedia | StorageError | DatabaseError

  datatype Reply = Refused(why: Refusal) | Already(key: string) | Accepted

  function Extension(mediaType: string): string {
    if mediaType == "video" then ".mp4" else if mediaType == "audio" then ".m4a" else ""
  }

  predicate EndsWith(s: string, suffix: string) {
    |suffix| <= |s| && s[|s| - |suffix|..] == suffix
  }

  ghost predicate IsFirst(keys: seq<string>, ext: string, i: nat) {
    i < |keys| && EndsWith(keys[i], ext) && forall j :: 0 <= j < i ==> !EndsWith(keys[j], ext)
  }

  /** findVodArtifact's scan of a listing: its first key with the extension. */
  method FindVodArtifact(keys: seq<string>, ext: string) returns (key: Option<string>)
    ensures key.None? <==> forall i :: 0 <= i < |keys| ==> !EndsWith(keys[i], ext)
    ensures key.Some? ==> exists i: nat :: IsFirst(keys, ext, i) && keys[i] == key.value
  {
    for i := 0 to |keys|
      invariant forall j :: 0 <= j < i ==> !EndsWith(keys[j], ext)
    {
      if EndsWith(keys[i], ext) {
        assert IsFirst(keys, ext, i);
        return Some(keys[i]);
      }
    }
    return None;
  }

  /** The stored render that makes a build pointless. */
  ghost predicate Rendered(listing: seq<string>, ext: string) {
    exists i :: 0 <= i < |listing| && EndsWith(listing[i], ext)
  }

  /** Why resolveVodTarget and the media check turn a request away. */
  ghost function Ineligible(streams: Table, stream: string, t: Transcript, lookupFails: bool,
                            countFails: bool): Option<Refusal> {
    if lookupFails then Some(DatabaseError)
    else if stream !in streams then Some(UnknownStream)
    else if streams[stream].live then Some(StillLive)
    else if Extension(streams[stream].mediaType) == "" then Some(NoMedia)
    else if countFails then Some(DatabaseError)
    else if CountMedia(t).1 == 0 then Some(NoMedia)
    else None
  }

  /** postAdminVodHandler without interference. A build is started exactly for an eligible stream
      that has no running build and no stored render, and only if storage and the database
      answered; its chunk list then has one ID per line with media. */
  method PostAdminVod(registry: VodRegistry, streams: Table, channel: string, stream: string, t: Transcript,
                      lookupFails: bool, counted: Result<int, ()>,
                      fileIDs: Result<seq<string>, ()>, listing: Result<seq<string>, ()>)
    returns (reply: Reply, job: Option<VodJob>)
    requires counted.Ok? ==> counted.value == CountMedia(t).1
    requires fileIDs.Ok? ==> fileIDs.value == AllFiles(t)
    modifies registry
    ensures job.Some? <==>
              && Ineligible(streams, stream, t, lookupFails, counted.Err?).None?
              && !old(registry.InFlight(channel, stream))
              && fileIDs.Ok? && listing.Ok? && !Rendered(listing.value, Extension(streams[stream].mediaType))
    ensures job.Some? ==>
              && fresh(job.value) && job.value.state == Running && reply == Accepted
              && registry.jobs == old(registry.jobs)[VodJobKey(channel, stream) := job.value]
              && |fileIDs.value| == CountMedia(t).1 > 0
              && FilesOfLines(t, Listing(WithMedia(t)), fileIDs.value)
    ensures job.None? ==> registry.jobs == old(registry.jobs)
    ensures match Ineligible(streams, stream, t, lookupFails, counted.Err?)
            case Some(why) => reply == Refused(why)
            case None =>
              var ext := Extension(streams[stream].mediaType);
              if old(registry.InFlight(channel, stream)) then reply == Accepted
              else if listing.Err? then reply == Refused(StorageError)
              else if Rendered(listing.value, ext) then
                reply.Already? && exists i: nat :: IsFirst(listing.value, ext, i) && listing.value[i] == reply.key
              else reply == if fileIDs.Err? then Refused(DatabaseError) else Accepted
  {
    CountIsListLength(t);
    AllFilesInOrder(t);
    job := None;
    if lookupFails { return Refused(DatabaseError), None; }
    if stream !in streams { return Refused(UnknownStream), None; }
    var st := streams[stream];
    if st.live { return Refused(StillLive), None; }
    var ext := Extension(st.mediaType);
    if ext == "" { return Refused(NoMedia), None; }
    if counted.Err? { return Refused(DatabaseError), None; }
    if counted.value == 0 { return Refused(NoMedia), None; }
    if registry.InFlight(channel, stream) { return Accepted, None; }
    if listing.Err? { return Refused(StorageError), None; }
    var found := FindVodArtifact(listing.value, ext);
    if found.Some? { return Already(found.value), None; }
    if fileIDs.Err? { return Refused(DatabaseError), None; }
    if |fileIDs.value| == 0 { return Refused(NoMedia), None; }
    var claimed, started := registry.Claim(channel, stream);
    return Accepted, Some(claimed);
  }

  /** A request is turned away in this order: the stream is unknown, live, or without media type; no
      line of it has media. Nothing else but a failed read turns it away here. */
  lemma {:induction false} IneligibleMeaning(streams: Table, stream: string, t: Transcript)
    ensures stream !in streams ==> Ineligible(streams, stream, t, false, false) == Some(UnknownStream)
    ensures stream in streams && streams[stream].live ==>
              Ineligible(streams, stream, t, false, false) == Some(StillLive)
    ensures stream in streams && !streams[stream].live ==>
              var untyped := streams[stream].mediaType !in ["video", "audio"];
              && Ineligible(streams, stream, t, false, false) ==
                 (if untyped || (forall id :: id in t ==> !HasMedia(t[id])) then Some(NoMedia) else None)
              && (!untyped ==> Ineligible(streams, stream, t, false, true) == Some(DatabaseError))
    ensures forall countFails :: Ineligible(streams, stream, t, true, countFails) == Some(DatabaseError)
  {
    NothingToStitch(t);
  }

  /** A video's render is an .mp4 and an audio stream's an .m4a. */
  lemma {:induction false} RenderExtension(mediaType: string, key: string)
    ensures mediaType == "video" ==>
              (EndsWith(key, Extension(mediaType)) <==> |key| >= 4 && key[|key| - 4..] == ".mp4")
    ensures mediaType == "audio" ==>
              (EndsWith(key, Extension(mediaType)) <==> |key| >= 4 && key[|key| - 4..] == ".m4a")
    ensures Extension(mediaType) == "" <==> mediaType !in ["video", "audio"]
  {
    assert |".mp4"| == |".m4a"| == 4;
  }

  lemma {:induction false} NothingToStitch(t: Transcript)
    ensures CountMedia(t).1 == 0 <==> forall id :: id in t ==> !HasMedia(t[id])
  {
    if CountMedia(t).1 == 0 {
      assert WithMedia(t) == {};
      forall id | id in t ensures !HasMedia(t[id]) {
        assert id !in WithMedia(t);
      }
    } else {
      var id := Pick(WithMedia(t));
      assert HasMedia(t[id]);
    }
  }

  // ---------------------------------------------------------------- a build

  /** The conversion of all chunks in order, if every chunk can be merged and ffmpeg succeeds. */
  function Rendering(chunks: ChunkMerge.Job, convert: Bytes -> Option<Bytes>): Option<Bytes>
    requires chunks.Valid()
  {
    match ChunkMerge.SequentialMerge(chunks)
    case Merged(merged) => convert(merged)
    case Failed(_) => None
  }

  /** buildVod: merge, convert, upload. `convert` stands for ffmpeg, `uploads` for storage. The job
      ends as done exactly when an artifact was stored; that artifact is the conversion of every chunk
      in order, and without a shutdown there is one whenever it can be made. */
  method BuildVod(job: VodJob, chunks: ChunkMerge.Job, convert: Bytes -> Option<Bytes>, uploads: bool,
                  shutDown: bool, schedule: (nat, ChunkMerge.State) -> ChunkMerge.Step)
    returns (artifact: Option<Bytes>)
    requires chunks.Valid()
    modifies job
    ensures job.phase == NoPhase
    ensures job.state == Done || job.state == Failed
    ensures job.state == Done <==> artifact.Some?
    ensures artifact.Some? ==> uploads && artifact == Rendering(chunks, convert)
    ensures !shutDown && ChunkMerge.NeverCancels(schedule) && uploads ==> artifact == Rendering(chunks, convert)
  {
    job.SetPhase(Merging);
    var outcome, merged := ChunkMerge.MergeRawAudio(chunks, shutDown, schedule);
    if outcome.Failed? {
      job.Finish(Some("merge raw audio"));
      return None;
    }
    job.SetPhase(Encoding);
    var converted := convert(outcome.bytes);
    if converted.None? {
      job.Finish(Some("convert merged audio"));
      return None;
    }
    job.SetPhase(Uploading);
    if !uploads {
      job.Finish(Some("upload vod"));
      return None;
    }
    job.Finish(None);
    return converted;
  }

  /** The request and the build it starts: a render that is stored is the conversion of the raw chunks
      of exactly the lines with media, by line ID; and there is one, unless a chunk cannot be read
      or appended, the conversion or the upload fails, or the server shuts down. */
  method PostAndBuild(registry: VodRegistry, streams: Table, channel: string, stream: string, t: Transcript,
                      lookupFails: bool, counted: Result<int, ()>,
                      fileIDs: Result<seq<string>, ()>, listing: Result<seq<string>, ()>,
                      objects: map<string, Bytes>, chunks: ChunkMerge.Job,
                      convert: Bytes -> Option<Bytes>, uploads: bool,
                      shutDown: bool, schedule: (nat, ChunkMerge.State) -> ChunkMerge.Step)
    returns (reply: Reply, job: Option<VodJob>, artifact: Option<Bytes>)
    requires counted.Ok? ==> counted.value == CountMedia(t).1
    requires fileIDs.Ok? ==> fileIDs.value == AllFiles(t) == chunks.fileIDs
    requires chunks.Valid() && Reads(chunks, objects, channel, stream)
    modifies registry
    ensures artifact.Some? ==>
              && job.Some? && job.value.state == Done && uploads
              && artifact == convert(ChunksOf(t, objects, channel, stream, Listing(WithMedia(t))))
    ensures job.Some? && artifact.None? ==> job.value.state == Failed
    ensures job.Some? && uploads && !shutDown && ChunkMerge.NeverCancels(schedule)
            && ChunkMerge.SequentialMerge(chunks).Merged? ==>
              artifact == convert(ChunksOf(t, objects, channel, stream, Listing(WithMedia(t))))
  {
    reply, job := PostAdminVod(registry, streams, channel, stream, t, lookupFails, counted, fileIDs, listing);
    artifact := None;
    if job.Some? {
      artifact := BuildVod(job.value, chunks, convert, uploads, shutDown, schedule);
      RenderingIsChunks(t, objects, channel, stream, Listing(WithMedia(t)), chunks, convert);
    }
  }

  lemma {:induction false} RenderingIsChunks(t: Transcript, objects: map<string, Bytes>, channel: string,
                                             stream: string,
                                             lines: seq<int>, chunks: ChunkMerge.Job, convert: Bytes -> Option<Bytes>)
    requires chunks.Valid() && FilesOfLines(t, lines, chunks.fileIDs) && Reads(chunks, objects, channel, stream)
    ensures Rendering(chunks, convert).Some? ==> ChunkMerge.SequentialMerge(chunks).Merged?
    ensures ChunkMerge.SequentialMerge(chunks).Merged? ==>
              Rendering(chunks, convert) == convert(ChunksOf(t, objects, channel, stream, lines))
  {
    if ChunkMerge.SequentialMerge(chunks).Merged? {
      MergeIsChunks(t, objects, channel, stream, lines, chunks);
    }
  }
}
