/** The raw chunks of transcript lines in storage, as a merge of their files joins them. */
module Chunks {
  import opened Prelude
  import opened Transcripts
  import opened StorageKeys
  import M = ChunkMerge

  /** Whatever storage and the file system do, the bytes they deliver for a chunk are its object's. */
  ghost predicate Reads(job: M.Job, objects: map<string, Bytes>, channel: string, stream: string)
    requires job.Valid()
  {
    forall i :: 0 <= i < |job.fileIDs| && job.sources[i].Available? ==>
      && RawKey(channel, stream, job.fileIDs[i]) in objects
      && job.sources[i].bytes == objects[RawKey(channel, stream, job.fileIDs[i])]
  }

  /** A line's raw object; empty if there is none. */
  ghost function ChunkOf(t: Transcript, objects: map<string, Bytes>, channel: string, stream: string,
                         line: int): Bytes {
    if line in t && RawKey(channel, stream, FileText(t[line])) in objects
    then objects[RawKey(channel, stream, FileText(t[line]))] else []
  }

  /** The raw chunks of these lines, one after the other. */
  ghost function ChunksOf(t: Transcript, objects: map<string, Bytes>, channel: string, stream: string,
                          lines: seq<int>): Bytes
  {
    if lines == [] then []
    else
      var n := |lines| - 1;
      ChunksOf(t, objects, channel, stream, lines[..n]) + ChunkOf(t, objects, channel, stream, lines[n])
  }

  /** The k-th file is that of the k-th line. */
  ghost predicate FilesOfLines(t: Transcript, lines: seq<int>, files: seq<string>) {
    |files| == |lines| && forall k :: 0 <= k < |files| ==> IsFileOf(t, lines[k], files[k])
  }

  /** The full list of a stream's files is that of its lines with media, by line ID. */
  lemma {:induction false} AllFilesInOrder(t: Transcript)
    ensures FilesOfLines(t, Listing(WithMedia(t)), AllFiles(t))
  {
    AllFilesMeaning(t);
    var lines := Listing(WithMedia(t));
    forall k | 0 <= k < |lines| ensures IsFileOf(t, lines[k], AllFiles(t)[k]) {
      assert lines[k] in WithMedia(t);
    }
  }

  lemma {:induction false} JoinedIsChunks(t: Transcript, objects: map<string, Bytes>, channel: string, stream: string,
                                          lines: seq<int>, job: M.Job, n: nat)
    requires job.Valid() && n <= |job.fileIDs| && M.Clean(job, n)
    requires FilesOfLines(t, lines, job.fileIDs) && Reads(job, objects, channel, stream)
    ensures M.Joined(job, n) == ChunksOf(t, objects, channel, stream, lines[..n])
  {
    if n > 0 {
      JoinedIsChunks(t, objects, channel, stream, lines, job, n - 1);
      assert M.ChunkError(job, n - 1).None?;
      assert lines[..n][..n - 1] == lines[..n - 1];
      assert IsFileOf(t, lines[n - 1], job.fileIDs[n - 1]);
    }
  }

  /** A merge of the files of some lines in order joins the raw chunks of exactly these lines. */
  lemma {:induction false} MergeIsChunks(t: Transcript, objects: map<string, Bytes>, channel: string, stream: string,
                                         lines: seq<int>, job: M.Job)
    requires job.Valid() && FilesOfLines(t, lines, job.fileIDs) && Reads(job, objects, channel, stream)
    requires M.SequentialMerge(job).Merged?
    ensures M.SequentialMerge(job).bytes == ChunksOf(t, objects, channel, stream, lines)
  {
    M.SequentialMeaning(job);
    JoinedIsChunks(t, objects, channel, stream, lines, job, |job.fileIDs|);
    assert lines[..|job.fileIDs|] == lines;
  }
}
