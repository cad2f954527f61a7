/**
 * internal/media/merge.go: the bounded parallel chunk merge.
 *
 * One producer, one downloader per chunk and the in-order writer share a slot semaphore, a
 * one-element channel per chunk, a WaitGroup and a cancel signal. `Apply` is one atomic move of
 * one goroutine (or of the caller cancelling its context); any interleaving is a sequence of
 * enabled moves.
 */
module ChunkMerge {
  import opened Prelude

  const MERGE_CONCURRENCY: nat := 32

  // ---------------------------------------------------------------- one call's inputs

  datatype MergeError =
    | NoFiles
    | SetupFailed
    | ContextDone
    | DownloadFailed(index: nat)
    | DownloadCancelled(index: nat)
    | OpenFailed(index: nat)
    | AppendFailed(index: nat)

  datatype Outcome = Merged(bytes: Bytes) | Failed(error: MergeError)

  /** What storage answers for a chunk that is not cancelled: its bytes, no object (or no temp
      file), or a copy that breaks off after `partial`. */
  datatype Source = Available(bytes: Bytes) | Unavailable | Broken(partial: Bytes)

  /** What the local file system does when the writer appends a chunk. */
  datatype AppendFault = NoFault | OpenFault | CopyFault(written: Bytes)

  datatype Job = Job(
    fileIDs: seq<string>,
    sources: seq<Source>,
    faults: seq<AppendFault>,
    createFails: bool,
    tempDirFails: bool)
  {
    ghost predicate Valid() { |sources| == |fileIDs| && |faults| == |fileIDs| }
  }

  /** The name of chunk i inside the download directory. */
  function ChunkName(i: nat, fileID: string): string {
    Decimal(i) + ['_'] + (fileID + ".raw")
  }

  function NameOf(job: Job, i: nat): string
    requires i < |job.fileIDs|
  {
    ChunkName(i, job.fileIDs[i])
  }

  lemma {:induction false} ChunkNamesDistinct(i: nat, f: string, j: nat, g: string)
    ensures ChunkName(i, f) == ChunkName(j, g) ==> i == j && f == g
  {
    if ChunkName(i, f) == ChunkName(j, g) {
      CutAtSeparator(Decimal(i), f + ".raw", Decimal(j), g + ".raw", '_');
      DecimalInjective(i, j);
      assert (f + ".raw")[..|f|] == f && (g + ".raw")[..|g|] == g;
    }
  }

  // ---------------------------------------------------------------- the sequential reference

  /** Why chunk i cannot be appended when nobody cancels; None if it can. */
  function ChunkError(job: Job, i: nat): Option<MergeError>
    requires job.Valid() && i < |job.fileIDs|
  {
    if !job.sources[i].Available? then Some(DownloadFailed(i))
    else match job.faults[i]
      case NoFault => None
      case OpenFault => Some(OpenFailed(i))
      case CopyFault(_) => Some(AppendFailed(i))
  }

  /** Fetch and append one chunk after another. */
  function MergeFrom(job: Job, i: nat, merged: Bytes): Outcome
    requires job.Valid() && i <= |job.fileIDs|
    decreases |job.fileIDs| - i
  {
    if i == |job.fileIDs| then Merged(merged)
    else match ChunkError(job, i)
      case Some(e) => Failed(e)
      case None => MergeFrom(job, i + 1, merged + job.sources[i].bytes)
  }

  function SequentialMerge(job: Job): Outcome
    requires job.Valid()
  {
    if job.fileIDs == [] then Failed(NoFiles)
    else if job.createFails || job.tempDirFails then Failed(SetupFailed)
    else MergeFrom(job, 0, [])
  }

  ghost predicate Clean(job: Job, k: nat)
    requires job.Valid() && k <= |job.fileIDs|
  {
    forall i :: 0 <= i < k ==> ChunkError(job, i).None?
  }

  /** The first k chunks, one after the other. */
  ghost function Joined(job: Job, k: nat): Bytes
    requires job.Valid() && k <= |job.fileIDs| && Clean(job, k)
  {
    if k == 0 then []
    else
      assert ChunkError(job, k - 1).None?;
      Joined(job, k - 1) + job.sources[k - 1].bytes
  }

  lemma {:induction false} MergeFromSkips(job: Job, k: nat)
    requires job.Valid() && k <= |job.fileIDs| && Clean(job, k)
    ensures MergeFrom(job, 0, []) == MergeFrom(job, k, Joined(job, k))
  {
    if k > 0 {
      MergeFromSkips(job, k - 1);
    }
  }

  lemma {:induction false} DecidedAt(job: Job, k: nat)
    requires job.Valid() && k < |job.fileIDs| && Clean(job, k)
    requires !job.createFails && !job.tempDirFails
    ensures ChunkError(job, k).Some? ==> SequentialMerge(job) == Failed(ChunkError(job, k).value)
  {
    MergeFromSkips(job, k);
  }

  /** The reference succeeds exactly when no chunk has an error, with every chunk's bytes in
      order; otherwise it fails with the error of the smallest bad index. */
  lemma {:induction false} SequentialMeaning(job: Job)
    requires job.Valid() && job.fileIDs != [] && !job.createFails && !job.tempDirFails
    ensures Clean(job, |job.fileIDs|) ==>
              SequentialMerge(job) == Merged(Joined(job, |job.fileIDs|))
    ensures forall k :: 0 <= k < |job.fileIDs| && Clean(job, k) && ChunkError(job, k).Some? ==>
              SequentialMerge(job) == Failed(ChunkError(job, k).value)
    ensures SequentialMerge(job).Merged? <==> Clean(job, |job.fileIDs|)
  {
    var n := |job.fileIDs|;
    if Clean(job, n) {
      MergeFromSkips(job, n);
    } else {
      var k := FirstBad(job, n);
      MergeFromSkips(job, k);
    }
    forall k | 0 <= k < n && Clean(job, k) && ChunkError(job, k).Some?
      ensures SequentialMerge(job) == Failed(ChunkError(job, k).value)
    {
      MergeFromSkips(job, k);
    }
  }

  lemma {:induction false} FirstBad(job: Job, n: nat) returns (k: nat)
    requires job.Valid() && n <= |job.fileIDs| && !Clean(job, n)
    ensures k < n && Clean(job, k) && ChunkError(job, k).Some?
  {
    if Clean(job, n - 1) {
      k := n - 1;
    } else {
      k := FirstBad(job, n - 1);
    }
  }

  // ---------------------------------------------------------------- the shared state

  /** Selecting: at the select between a slot and dlCtx.Done; Spawning: holds a slot for the next
      chunk whose downloader is not running yet. */
  datatype ProducerPc = Selecting | Spawning | ProducerGone

  /** NotStarted; in Get; copying into its file; result handed over; wg.Done called. */
  datatype DownloadPc = NotStarted | Getting | Saving | HandedOver | DownloadGone

  datatype Chunk = ChunkFile(name: string) | ChunkErr(error: MergeError)

  datatype WriterPc =
    | LoopHead
    | Receiving
    | Appending(name: string)
    | Deleting(name: string)
    | Releasing
    | Joining
    | Aborting(error: MergeError)
    | AbortJoining(error: MergeError)
    | Returned(outcome: Outcome)

  datatype State = State(
    producer: ProducerPc,
    started: nat,                     // the producer's loop index
    slots: nat,                       // elements in the slot channel
    holders: set<nat>,                // which indices those slots were taken for
    downloads: seq<DownloadPc>,
    results: seq<Option<Chunk>>,      // the one-element channel of every chunk
    wg: nat,
    parentDone: bool,                 // ctx
    dlDone: bool,                     // dlCtx
    writer: WriterPc,
    appended: nat,                    // the writer's loop index
    merged: Option<Bytes>,            // the merged file, if it exists
    scratch: map<string, Bytes>,      // files in the download directory
    undeleted: set<string>)           // chunks whose os.Remove failed (its error is ignored)

  function Initial(n: nat, parentDone: bool): State {
    State(Selecting, 0, 0, {}, seq(n, _ => NotStarted), seq(n, _ => None), 1,
          parentDone, parentDone, LoopHead, 0, Some([]), map[], {})
  }

  datatype ProducerStep = TakeSlot | Spawn | Stop
  datatype DownloadStep = BeginSave | FailGet | FinishSave | FailSave | GiveUp | Done
  datatype WriterStep =
    | CheckContext | Receive | ReceiveCancel | Append | Delete(removed: bool) | ReleaseSlot
    | CancelDownloads | Return

  datatype Step =
    | Producer(p: ProducerStep)
    | Download(i: nat, d: DownloadStep)
    | Writer(w: WriterStep)
    | CancelParent

  predicate ProducerEnabled(n: nat, s: State, a: ProducerStep) {
    match a
    case TakeSlot => s.producer.Selecting? && s.started < n && s.slots < MERGE_CONCURRENCY
    case Spawn => s.producer.Spawning? && s.started < n
    case Stop => s.producer.Selecting? && (s.started == n || s.dlDone) && s.wg > 0
  }

  function ProducerMove(s: State, a: ProducerStep): State
    requires |s.downloads| == |s.results| && ProducerEnabled(|s.downloads|, s, a)
  {
    match a
    case TakeSlot =>
      s.(producer := Spawning, slots := s.slots + 1, holders := s.holders + {s.started})
    case Spawn =>
      s.(producer := Selecting, started := s.started + 1, wg := s.wg + 1,
         downloads := s.downloads[s.started := Getting])
    case Stop =>
      s.(producer := ProducerGone, wg := s.wg - 1)
  }

  /** A downloader sends its result only into an empty channel; it would block otherwise. */
  predicate DownloadEnabled(source: Source, s: State, i: nat, a: DownloadStep)
    requires i < |s.downloads| == |s.results|
  {
    var pc := s.downloads[i];
    match a
    case BeginSave => pc.Getting? && !source.Unavailable?
    case FailGet => pc.Getting? && source.Unavailable? && s.results[i].None?
    case FinishSave => pc.Saving? && source.Available? && s.results[i].None?
    case FailSave => pc.Saving? && source.Broken? && s.results[i].None?
    case GiveUp => (pc.Getting? || pc.Saving?) && s.dlDone && s.results[i].None?
    case Done => pc.HandedOver? && s.wg > 0
  }

  function HandOver(s: State, i: nat, c: Chunk): State
    requires i < |s.downloads| == |s.results|
  {
    s.(downloads := s.downloads[i := HandedOver], results := s.results[i := Some(c)])
  }

  function DownloadMove(source: Source, name: string, s: State, i: nat, a: DownloadStep): State
    requires i < |s.downloads| == |s.results| && DownloadEnabled(source, s, i, a)
  {
    match a
    case BeginSave => s.(downloads := s.downloads[i := Saving], scratch := s.scratch[name := []])
    case FailGet => HandOver(s, i, ChunkErr(DownloadFailed(i)))
    case FinishSave =>
      HandOver(s, i, ChunkFile(name)).(scratch := s.scratch[name := source.bytes])
    case FailSave =>
      HandOver(s, i, ChunkErr(DownloadFailed(i))).(scratch := s.scratch[name := source.partial])
    case GiveUp => HandOver(s, i, ChunkErr(DownloadCancelled(i)))
    case Done => s.(downloads := s.downloads[i := DownloadGone], wg := s.wg - 1)
  }

  predicate WriterEnabled(n: nat, s: State, a: WriterStep)
    requires |s.results| == n
  {
    match a
    case CheckContext => s.writer.LoopHead?
    case Receive => s.writer.Receiving? && s.appended < n && s.results[s.appended].Some?
    case ReceiveCancel => s.writer.Receiving? && s.parentDone
    case Append => s.writer.Appending? && s.writer.name in s.scratch && s.merged.Some? && s.appended < n
    case Delete(_) => s.writer.Deleting?
    case ReleaseSlot => s.writer.Releasing? && s.slots > 0
    case CancelDownloads => s.writer.Aborting?
    case Return => (s.writer.Joining? || s.writer.AbortJoining?) && s.wg == 0 && s.merged.Some?
  }

  function AppendChunk(fault: AppendFault, s: State): State
    requires s.writer.Appending? && s.writer.name in s.scratch && s.merged.Some?
  {
    match fault
    case OpenFault => s.(writer := Aborting(OpenFailed(s.appended)))
    case CopyFault(written) =>
      s.(writer := Aborting(AppendFailed(s.appended)), merged := Some(s.merged.value + written))
    case NoFault =>
      s.(writer := Deleting(s.writer.name), merged := Some(s.merged.value + s.scratch[s.writer.name]))
  }

  function WriterMove(job: Job, s: State, a: WriterStep): State
    requires job.Valid() && |s.results| == |job.fileIDs| && WriterEnabled(|job.fileIDs|, s, a)
  {
    match a
    case CheckContext =>
      if s.appended >= |job.fileIDs| then s.(writer := Joining)
      else if s.parentDone then s.(writer := Aborting(ContextDone))
      else s.(writer := Receiving)
    case Receive =>
      var c := s.results[s.appended].value;
      s.(results := s.results[s.appended := None],
         writer := match c case ChunkFile(name) => Appending(name) case ChunkErr(e) => Aborting(e))
    case ReceiveCancel => s.(writer := Aborting(ContextDone))
    case Append => AppendChunk(job.faults[s.appended], s)
    case Delete(removed) =>
      if removed then s.(writer := Releasing, scratch := s.scratch - {s.writer.name})
      else s.(writer := Releasing, undeleted := s.undeleted + {s.writer.name})
    case ReleaseSlot =>
      s.(writer := LoopHead, slots := s.slots - 1, holders := s.holders - {s.appended},
         appended := s.appended + 1)
    case CancelDownloads => s.(writer := AbortJoining(s.writer.error), dlDone := true)
    case Return =>
      // The deferred calls run: cancel, RemoveAll(downloadDir), Close, Remove unless successful.
      if s.writer.Joining? then
        s.(writer := Returned(Merged(s.merged.value)), dlDone := true, scratch := map[])
      else
        s.(writer := Returned(Failed(s.writer.error)), dlDone := true, scratch := map[], merged := None)
  }

  predicate Enabled(job: Job, s: State, a: Step)
    requires job.Valid() && |s.downloads| == |s.results| == |job.fileIDs|
  {
    match a
    case Producer(p) => ProducerEnabled(|job.fileIDs|, s, p)
    case Download(i, d) => i < |job.fileIDs| && DownloadEnabled(job.sources[i], s, i, d)
    case Writer(w) => WriterEnabled(|job.fileIDs|, s, w)
    case CancelParent => !s.parentDone && !s.writer.Returned?
  }

  function Apply(job: Job, s: State, a: Step): State
    requires job.Valid() && |s.downloads| == |s.results| == |job.fileIDs| && Enabled(job, s, a)
  {
    match a
    case Producer(p) => ProducerMove(s, p)
    case Download(i, d) => DownloadMove(job.sources[i], NameOf(job, i), s, i, d)
    case Writer(w) => WriterMove(job, s, w)
    case CancelParent => s.(parentDone := true, dlDone := true)
  }

  // ---------------------------------------------------------------- weighted sums over downloads

  ghost function Sum(ds: seq<DownloadPc>, w: DownloadPc -> nat): nat {
    if ds == [] then 0 else w(ds[0]) + Sum(ds[1..], w)
  }

  lemma {:induction false} SumUpdate(ds: seq<DownloadPc>, i: nat, pc: DownloadPc, w: DownloadPc -> nat)
    requires i < |ds|
    ensures Sum(ds[i := pc], w) + w(ds[i]) == Sum(ds, w) + w(pc)
    ensures Sum(ds, w) >= w(ds[i])
  {
    if i == 0 {
      assert ds[i := pc][1..] == ds[1..];
    } else {
      assert ds[i := pc][1..] == ds[1..][i - 1 := pc];
      SumUpdate(ds[1..], i - 1, pc, w);
    }
  }

  lemma {:induction false} SumZero(ds: seq<DownloadPc>, w: DownloadPc -> nat)
    ensures Sum(ds, w) == 0 <==> forall i :: 0 <= i < |ds| ==> w(ds[i]) == 0
  {
    if ds != [] {
      SumZero(ds[1..], w);
      assert forall i :: 0 <= i < |ds[1..]| ==> ds[1..][i] == ds[i + 1];
      assert forall i :: 0 < i < |ds| ==> ds[i] == ds[1..][i - 1];
    }
  }

  lemma {:induction false} SumUniform(ds: seq<DownloadPc>, w: DownloadPc -> nat, v: nat)
    requires forall i :: 0 <= i < |ds| ==> w(ds[i]) == v
    ensures Sum(ds, w) == |ds| * v
  {
    if ds != [] {
      SumUniform(ds[1..], w, v);
      assert |ds| * v == v + (|ds| - 1) * v;
    }
  }

  ghost function Live(pc: DownloadPc): nat {
    if pc.Getting? || pc.Saving? || pc.HandedOver? then 1 else 0
  }

  ghost function Rank(pc: DownloadPc): nat {
    match pc
    case NotStarted => 4
    case Getting => 3
    case Saving => 2
    case HandedOver => 1
    case DownloadGone => 0
  }

  // ---------------------------------------------------------------- the invariant

  ghost predicate Active(s: State) {
    !s.writer.Aborting? && !s.writer.AbortJoining? && !s.writer.Returned?
  }

  /** How many chunks the merged file holds while the writer is in its loop. */
  ghost function Written(s: State): nat {
    if s.writer.Deleting? || s.writer.Releasing? then s.appended + 1 else s.appended
  }

  /** How many results the writer has taken out of their channels. */
  ghost function Taken(s: State): nat {
    if s.writer.Appending? || s.writer.Deleting? || s.writer.Releasing? then s.appended + 1 else s.appended
  }

  /** The next index the producer takes a slot for. */
  ghost function NextSlot(s: State): nat {
    s.started + (if s.producer.Spawning? then 1 else 0)
  }

  ghost predicate Shape(n: nat, s: State) {
    && |s.downloads| == |s.results| == n
    && s.appended <= s.started <= n
    && (s.producer.Spawning? ==> s.started < n)
    && (s.producer.ProducerGone? ==> s.started == n || s.dlDone)
    && (s.writer.Receiving? ==> s.appended < n)
    && (s.writer.Appending? || s.writer.Deleting? || s.writer.Releasing? ==> s.appended < s.started)
    && (s.writer.Joining? ==> s.appended == n)
    && (s.parentDone ==> s.dlDone)
    && (Active(s) && s.dlDone ==> s.parentDone)
    && (s.writer.AbortJoining? ==> s.dlDone)
  }

  /** Downloads start in index order, and what was taken from a channel has been handed over. */
  ghost predicate Progressed(s: State) {
    && Taken(s) <= s.started <= |s.downloads|
    && (forall i :: 0 <= i < |s.downloads| ==> (s.downloads[i].NotStarted? <==> i >= s.started))
    && (forall i :: 0 <= i < Taken(s) ==> s.downloads[i].HandedOver? || s.downloads[i].DownloadGone?)
  }

  /** Slots are held for exactly the indices from the next one to append to the next one to start. */
  ghost predicate SlotWindow(s: State) {
    && s.appended <= s.started
    && (forall i: nat :: i in s.holders <==> s.appended <= i < NextSlot(s))
    && s.slots == NextSlot(s) - s.appended <= MERGE_CONCURRENCY
  }

  /** The WaitGroup counts the running goroutines. */
  ghost predicate Counted(s: State) {
    s.wg == (if s.producer.ProducerGone? then 0 else 1) + Sum(s.downloads, Live)
  }

  ghost predicate ResultRight(job: Job, s: State, i: nat, c: Chunk)
    requires job.Valid() && i < |job.fileIDs|
  {
    match c
    case ChunkFile(name) =>
      && name == NameOf(job, i)
      && job.sources[i].Available?
      && name in s.scratch && s.scratch[name] == job.sources[i].bytes
    case ChunkErr(e) =>
      || (e == DownloadFailed(i) && !job.sources[i].Available?)
      || (e == DownloadCancelled(i) && s.dlDone)
  }

  /** A channel is empty until its download hands over; after that, until the writer takes it. */
  ghost predicate Channels(s: State)
    requires |s.downloads| == |s.results|
  {
    forall i :: 0 <= i < |s.results| ==>
      && (Unfinished(s.downloads[i]) ==> s.results[i].None?)
      && (Active(s) && i >= Taken(s) && !Unfinished(s.downloads[i]) ==> s.results[i].Some?)
      && (Active(s) && i < Taken(s) ==> s.results[i].None?)
  }

  ghost predicate Unfinished(pc: DownloadPc) {
    pc.NotStarted? || pc.Getting? || pc.Saving?
  }

  /** Results in channels, and the one the writer holds, name intact files or true errors. */
  ghost predicate Results(job: Job, s: State)
    requires job.Valid() && |s.results| == |job.fileIDs|
  {
    && (forall i :: 0 <= i < |s.downloads| && i < |s.results| && s.downloads[i].Saving? ==>
          !job.sources[i].Unavailable?)
    && (Active(s) ==> forall i :: 0 <= i < |s.results| && s.results[i].Some? ==>
          ResultRight(job, s, i, s.results[i].value))
    && (s.writer.Appending? ==>
          s.appended < |s.results| && ResultRight(job, s, s.appended, ChunkFile(s.writer.name)))
    && (s.writer.Deleting? ==>
          s.appended < |s.results| && s.writer.name == NameOf(job, s.appended))
  }

  ghost predicate Excused(job: Job, s: State, e: MergeError)
    requires job.Valid()
  {
    || SequentialMerge(job) == Failed(e)
    || (s.parentDone && (e.ContextDone? || e.DownloadCancelled?))
  }

  /** The merged file and the outcome agree with the sequential merge. */
  ghost predicate Output(job: Job, s: State)
    requires job.Valid()
  {
    var n := |job.fileIDs|;
    && (Active(s) ==> Written(s) <= n && Clean(job, Written(s)) && s.merged == Some(Joined(job, Written(s))))
    && (s.writer.Aborting? ==> Excused(job, s, s.writer.error) && s.merged.Some?)
    && (s.writer.AbortJoining? ==> Excused(job, s, s.writer.error) && s.merged.Some?)
    && (s.writer.Returned? ==>
          match s.writer.outcome
          case Merged(bytes) => SequentialMerge(job) == Merged(bytes) && s.merged == Some(bytes)
          case Failed(e) => Excused(job, s, e) && s.merged.None?)
  }

  /** The first index whose chunk file may still be there. */
  ghost function FirstKept(s: State): nat {
    if s.writer.Releasing? then s.appended + 1 else s.appended
  }

  /** Every file in the download directory belongs to an index in the window, or could not be deleted. */
  ghost predicate Scratch(job: Job, s: State)
    requires job.Valid() && s.started <= |job.fileIDs|
  {
    forall name :: name in s.scratch && name !in s.undeleted ==>
      exists i: nat :: FirstKept(s) <= i < s.started && name == NameOf(job, i)
  }

  ghost predicate Stopped(s: State) {
    s.writer.Returned? ==> s.wg == 0 && s.scratch == map[]
  }

  /** The call went past its argument check and file creations. */
  ghost predicate Proper(job: Job) {
    job.Valid() && job.fileIDs != [] && !job.createFails && !job.tempDirFails
  }

  ghost predicate Inv(job: Job, s: State) {
    && Proper(job)
    && Shape(|job.fileIDs|, s) && Progressed(s) && SlotWindow(s) && Counted(s) && Channels(s)
    && Results(job, s) && Output(job, s) && Scratch(job, s) && Stopped(s)
  }

  lemma {:induction false} InitialInv(job: Job, parentDone: bool)
    requires Proper(job)
    ensures Inv(job, Initial(|job.fileIDs|, parentDone))
  {
    var s := Initial(|job.fileIDs|, parentDone);
    SumUniform(s.downloads, Live, 0);
  }

  // ---------------------------------------------------------------- every move keeps it

  /** Once the call has returned nothing can move: no goroutine outlives it. */
  lemma {:induction false} NothingOutlivesTheCall(job: Job, s: State, a: Step)
    requires Inv(job, s) && s.writer.Returned?
    ensures !Enabled(job, s, a)
    ensures s.producer.ProducerGone?
    ensures forall i :: 0 <= i < |s.downloads| ==> s.downloads[i].NotStarted? || s.downloads[i].DownloadGone?
  {
    SumZero(s.downloads, Live);
    forall i | 0 <= i < |s.downloads| ensures s.downloads[i].NotStarted? || s.downloads[i].DownloadGone? {
      assert Live(s.downloads[i]) == 0;
    }
  }

  lemma {:induction false} ProducerControl(n: nat, s: State, a: ProducerStep)
    requires Shape(n, s) && Progressed(s) && SlotWindow(s) && Channels(s) && ProducerEnabled(n, s, a)
    ensures var t := ProducerMove(s, a); Shape(n, t) && Progressed(t) && SlotWindow(t) && Channels(t)
  {
    var t := ProducerMove(s, a);
  }

  lemma {:induction false} DownloadControl(n: nat, source: Source, name: string, s: State, i: nat, a: DownloadStep)
    requires Shape(n, s) && Progressed(s) && SlotWindow(s)
    requires i < n && DownloadEnabled(source, s, i, a)
    ensures var t := DownloadMove(source, name, s, i, a); Shape(n, t) && Progressed(t) && SlotWindow(t)
  {
  }

  lemma {:induction false} DownloadChannels(n: nat, source: Source, name: string, s: State, i: nat, a: DownloadStep)
    requires Shape(n, s) && Progressed(s) && Channels(s) && i < n && DownloadEnabled(source, s, i, a)
    ensures Channels(DownloadMove(source, name, s, i, a))
  {
  }

  lemma {:induction false} WriterControl(job: Job, s: State, a: WriterStep)
    requires job.Valid() && Shape(|job.fileIDs|, s) && Progressed(s) && Channels(s)
    requires WriterEnabled(|job.fileIDs|, s, a)
    ensures var t := WriterMove(job, s, a); Shape(|job.fileIDs|, t) && Progressed(t)
  {
    if a.Receive? {
      assert !Unfinished(s.downloads[s.appended]) && s.appended < s.started;
    }
  }

  lemma {:induction false} WriterWindow(job: Job, s: State, a: WriterStep)
    requires job.Valid() && Shape(|job.fileIDs|, s) && SlotWindow(s)
    requires WriterEnabled(|job.fileIDs|, s, a)
    ensures SlotWindow(WriterMove(job, s, a))
  {
  }

  lemma {:induction false} WriterChannels(job: Job, s: State, a: WriterStep)
    requires job.Valid() && Shape(|job.fileIDs|, s) && Progressed(s) && Channels(s)
    requires WriterEnabled(|job.fileIDs|, s, a)
    ensures Channels(WriterMove(job, s, a))
  {
  }

  lemma {:induction false} ProducerCounted(n: nat, s: State, a: ProducerStep)
    requires Shape(n, s) && Progressed(s) && Counted(s) && ProducerEnabled(n, s, a)
    ensures Counted(ProducerMove(s, a))
  {
    if a.Spawn? { SumUpdate(s.downloads, s.started, Getting, Live); }
  }

  lemma {:induction false} DownloadCounted(n: nat, source: Source, name: string, s: State, i: nat, a: DownloadStep)
    requires Shape(n, s) && Counted(s) && i < n && DownloadEnabled(source, s, i, a)
    ensures Counted(DownloadMove(source, name, s, i, a))
  {
    SumUpdate(s.downloads, i, if a.BeginSave? then Saving else if a.Done? then DownloadGone else HandedOver, Live);
  }

  lemma {:induction false} NamesDistinct(job: Job)
    requires job.Valid()
    ensures forall i: nat, j: nat :: i < j < |job.fileIDs| ==> NameOf(job, i) != NameOf(job, j)
  {
    forall i: nat, j: nat | i < j < |job.fileIDs| ensures NameOf(job, i) != NameOf(job, j) {
      ChunkNamesDistinct(i, job.fileIDs[i], j, job.fileIDs[j]);
    }
  }

  lemma {:induction false} DownloadResults(job: Job, s: State, i: nat, a: DownloadStep)
    requires job.Valid() && Shape(|job.fileIDs|, s) && Progressed(s) && Channels(s) && Results(job, s)
    requires i < |job.fileIDs| && DownloadEnabled(job.sources[i], s, i, a)
    ensures Results(job, DownloadMove(job.sources[i], NameOf(job, i), s, i, a))
  {
    match a
    case Done =>
    case FailGet =>
    case GiveUp =>
    case _ => DownloadSaves(job, s, i, a);
  }

  lemma {:induction false} DownloadSaves(job: Job, s: State, i: nat, a: DownloadStep)
    requires job.Valid() && Shape(|job.fileIDs|, s) && Progressed(s) && Channels(s) && Results(job, s)
    requires i < |job.fileIDs| && DownloadEnabled(job.sources[i], s, i, a)
    requires a.BeginSave? || a.FinishSave? || a.FailSave?
    ensures Results(job, DownloadMove(job.sources[i], NameOf(job, i), s, i, a))
  {
    NamesDistinct(job);
  }

  lemma {:induction false} WriterResults(job: Job, s: State, a: WriterStep)
    requires job.Valid() && Shape(|job.fileIDs|, s) && Progressed(s) && Channels(s) && Results(job, s)
    requires WriterEnabled(|job.fileIDs|, s, a)
    ensures Results(job, WriterMove(job, s, a))
  {
    if a.Delete? { DeleteResults(job, s, a.removed); }
  }

  /** Deleting one chunk's file leaves those of the others. */
  lemma {:induction false} DeleteResults(job: Job, s: State, removed: bool)
    requires job.Valid() && Shape(|job.fileIDs|, s) && Progressed(s) && Channels(s) && Results(job, s)
    requires s.writer.Deleting?
    ensures Results(job, WriterMove(job, s, Delete(removed)))
  {
    NamesDistinct(job);
    assert s.results[s.appended].None?;
  }

  lemma {:induction false} WriterOutput(job: Job, s: State, a: WriterStep)
    requires Proper(job) && Shape(|job.fileIDs|, s) && Results(job, s) && Output(job, s)
    requires WriterEnabled(|job.fileIDs|, s, a)
    ensures Output(job, WriterMove(job, s, a))
  {
    if a.Return? && s.writer.Joining? {
      MergeFromSkips(job, s.appended);
    } else if a.Receive? || a.Append? {
      DecidedAt(job, s.appended);
    }
  }

  lemma {:induction false} DownloadScratch(job: Job, s: State, i: nat, a: DownloadStep)
    requires job.Valid() && Shape(|job.fileIDs|, s) && Progressed(s) && Scratch(job, s)
    requires i < |job.fileIDs| && DownloadEnabled(job.sources[i], s, i, a)
    ensures Scratch(job, DownloadMove(job.sources[i], NameOf(job, i), s, i, a))
  {
    if !a.Done? { assert FirstKept(s) <= i < s.started; }
  }

  lemma {:induction false} WriterScratch(job: Job, s: State, a: WriterStep)
    requires job.Valid() && Shape(|job.fileIDs|, s) && Results(job, s) && Scratch(job, s)
    requires WriterEnabled(|job.fileIDs|, s, a)
    ensures Scratch(job, WriterMove(job, s, a))
  {
    var t := WriterMove(job, s, a);
    forall name | name in t.scratch && name !in t.undeleted
      ensures exists i: nat :: FirstKept(t) <= i < t.started && name == NameOf(job, i)
    {
      assert name in s.scratch && name !in s.undeleted;
      var i: nat :| FirstKept(s) <= i < s.started && name == NameOf(job, i);
      assert FirstKept(t) <= i < t.started;
    }
  }

  lemma {:induction false} CancelKeepsInv(job: Job, s: State)
    requires Inv(job, s) && Enabled(job, s, CancelParent)
    ensures Inv(job, Apply(job, s, CancelParent))
  {
  }

  lemma {:induction false} ProducerFrame(job: Job, s: State, p: ProducerStep)
    requires job.Valid() && Shape(|job.fileIDs|, s) && ProducerEnabled(|job.fileIDs|, s, p)
    requires Results(job, s) && Output(job, s) && Scratch(job, s)
    ensures var t := ProducerMove(s, p); |t.results| == |job.fileIDs| && t.started <= |job.fileIDs|
    ensures var t := ProducerMove(s, p); Results(job, t) && Output(job, t) && Scratch(job, t)
  {
  }

  lemma {:induction false} ProducerKeepsInv(job: Job, s: State, p: ProducerStep)
    requires Inv(job, s) && !s.writer.Returned? && ProducerEnabled(|job.fileIDs|, s, p)
    ensures Inv(job, ProducerMove(s, p))
  {
    ProducerCounted(|job.fileIDs|, s, p);
    ProducerControl(|job.fileIDs|, s, p);
    ProducerFrame(job, s, p);
  }

  lemma {:induction false} DownloadKeepsInv(job: Job, s: State, i: nat, d: DownloadStep)
    requires Inv(job, s) && !s.writer.Returned? && Enabled(job, s, Download(i, d))
    ensures Inv(job, DownloadMove(job.sources[i], NameOf(job, i), s, i, d))
  {
    DownloadCounted(|job.fileIDs|, job.sources[i], NameOf(job, i), s, i, d);
    DownloadControl(|job.fileIDs|, job.sources[i], NameOf(job, i), s, i, d);
    DownloadChannels(|job.fileIDs|, job.sources[i], NameOf(job, i), s, i, d);
    DownloadResults(job, s, i, d);
    DownloadScratch(job, s, i, d);
    DownloadFrame(job, s, i, d);
  }

  /** The merged file and the outcome are the writer's. */
  lemma {:induction false} DownloadFrame(job: Job, s: State, i: nat, d: DownloadStep)
    requires job.Valid() && Shape(|job.fileIDs|, s) && Output(job, s) && !s.writer.Returned?
    requires i < |job.fileIDs| && DownloadEnabled(job.sources[i], s, i, d)
    ensures var t := DownloadMove(job.sources[i], NameOf(job, i), s, i, d); Output(job, t) && Stopped(t)
  {
  }

  lemma {:induction false} WriterCounted(job: Job, s: State, w: WriterStep)
    requires job.Valid() && |s.results| == |job.fileIDs| && WriterEnabled(|job.fileIDs|, s, w)
    requires Counted(s) && !s.writer.Returned?
    ensures Counted(WriterMove(job, s, w)) && Stopped(WriterMove(job, s, w))
  {
  }

  lemma {:induction false} WriterKeepsInv(job: Job, s: State, w: WriterStep)
    requires Inv(job, s) && !s.writer.Returned? && WriterEnabled(|job.fileIDs|, s, w)
    ensures Inv(job, WriterMove(job, s, w))
  {
    WriterCounted(job, s, w);
    WriterControl(job, s, w);
    WriterWindow(job, s, w);
    WriterChannels(job, s, w);
    WriterResults(job, s, w);
    WriterOutput(job, s, w);
    WriterScratch(job, s, w);
  }

  lemma {:induction false} StepKeepsInv(job: Job, s: State, a: Step)
    requires Inv(job, s) && Enabled(job, s, a)
    ensures Inv(job, Apply(job, s, a))
  {
    if s.writer.Returned? {
      NothingOutlivesTheCall(job, s, a);
    } else {
      match a
      case Producer(p) => ProducerKeepsInv(job, s, p);
      case Download(i, d) => DownloadKeepsInv(job, s, i, d);
      case Writer(w) => WriterKeepsInv(job, s, w);
      case CancelParent => CancelKeepsInv(job, s);
    }
  }

  // ---------------------------------------------------------------- progress and termination

  /** The move that a started, not yet finished download makes when nobody cancels it. */
  function NextDownloadStep(source: Source, pc: DownloadPc): DownloadStep {
    match pc
    case Getting => if source.Unavailable? then FailGet else BeginSave
    case Saving => if source.Broken? then FailSave else FinishSave
    case _ => Done
  }

  function FirstLive(ds: seq<DownloadPc>): (i: nat)
    requires Sum(ds, Live) > 0
    ensures i < |ds| && Live(ds[i]) == 1
  {
    if ds[0].Getting? || ds[0].Saving? || ds[0].HandedOver? then 0
    else FirstLive(ds[1..]) + 1
  }

  /** While some goroutine runs after the writer left its loop, one of them can move. */
  function NextWhileJoining(job: Job, s: State): (a: Step)
    requires Inv(job, s) && (s.writer.Joining? || s.writer.AbortJoining?) && s.wg > 0
    ensures Enabled(job, s, a) && !a.CancelParent?
  {
    if s.producer.Spawning? then Producer(Spawn)
    else if s.producer.Selecting? then Producer(Stop)
    else
      var i := FirstLive(s.downloads);
      Download(i, NextDownloadStep(job.sources[i], s.downloads[i]))
  }

  /** While the writer waits for a chunk, that chunk is there or someone can bring it closer. */
  function NextWhileReceiving(job: Job, s: State): (a: Step)
    requires Inv(job, s) && s.writer.Receiving?
    ensures Enabled(job, s, a) && !a.CancelParent?
  {
    if s.parentDone then Writer(ReceiveCancel)
    else if s.results[s.appended].Some? then Writer(Receive)
    else if s.downloads[s.appended].NotStarted? then
      if s.producer.Spawning? then Producer(Spawn) else Producer(TakeSlot)
    else Download(s.appended, NextDownloadStep(job.sources[s.appended], s.downloads[s.appended]))
  }

  /** Deadlock freedom: until the call has returned, some goroutine can move. */
  function NextStep(job: Job, s: State): (a: Step)
    requires Inv(job, s) && !s.writer.Returned?
    ensures Enabled(job, s, a) && !a.CancelParent?
  {
    match s.writer
    case LoopHead => Writer(CheckContext)
    case Receiving => NextWhileReceiving(job, s)
    case Appending(_) => Writer(Append)
    case Deleting(_) => Writer(Delete(true))
    case Releasing => Writer(ReleaseSlot)
    case Aborting(_) => Writer(CancelDownloads)
    case Joining => if s.wg == 0 then Writer(Return) else NextWhileJoining(job, s)
    case AbortJoining(_) => if s.wg == 0 then Writer(Return) else NextWhileJoining(job, s)
  }

  ghost function ProducerRank(n: nat, s: State): nat
    requires s.started <= n && (s.producer.Spawning? ==> s.started < n)
  {
    2 * (n - s.started) + (match s.producer case Selecting => 1 case Spawning => 0 case ProducerGone => 0)
  }

  ghost function WriterRank(n: nat, s: State): nat
    requires s.appended <= n
  {
    match s.writer
    case LoopHead => 5 * (n - s.appended) + 5
    case Receiving => 5 * (n - s.appended) + 4
    case Appending(_) => 5 * (n - s.appended) + 3
    case Deleting(_) => 5 * (n - s.appended) + 2
    case Releasing => 5 * (n - s.appended) + 1
    case Aborting(_) => 2
    case Joining => 1
    case AbortJoining(_) => 1
    case Returned(_) => 0
  }

  ghost predicate Ranked(n: nat, s: State) {
    s.appended <= n && s.started <= n && (s.producer.Spawning? ==> s.started < n)
  }

  ghost function Measure(n: nat, s: State): nat
    requires Ranked(n, s)
  {
    ProducerRank(n, s) + Sum(s.downloads, Rank) + WriterRank(n, s) + (if s.parentDone then 0 else 1)
  }

  lemma {:induction false} DownloadSumDrops(source: Source, name: string, s: State, i: nat, a: DownloadStep)
    requires i < |s.downloads| == |s.results| && DownloadEnabled(source, s, i, a)
    ensures Sum(DownloadMove(source, name, s, i, a).downloads, Rank) < Sum(s.downloads, Rank)
  {
    SumUpdate(s.downloads, i, if a.BeginSave? then Saving else if a.Done? then DownloadGone else HandedOver, Rank);
  }

  lemma {:induction false} DownloadRankDrops(n: nat, source: Source, name: string, s: State, i: nat, a: DownloadStep)
    requires Ranked(n, s) && i < |s.downloads| == |s.results| && DownloadEnabled(source, s, i, a)
    requires Ranked(n, DownloadMove(source, name, s, i, a))
    ensures Measure(n, DownloadMove(source, name, s, i, a)) < Measure(n, s)
  {
    DownloadSumDrops(source, name, s, i, a);
    var t := DownloadMove(source, name, s, i, a);
    assert t.writer == s.writer && t.appended == s.appended && t.parentDone == s.parentDone;
    assert t.producer == s.producer && t.started == s.started;
    assert WriterRank(n, t) == WriterRank(n, s) && ProducerRank(n, t) == ProducerRank(n, s);
  }

  lemma {:induction false} ProducerRankDrops(n: nat, s: State, a: ProducerStep)
    requires Shape(n, s) && Progressed(s) && ProducerEnabled(n, s, a)
    requires Ranked(n, ProducerMove(s, a))
    ensures Measure(n, ProducerMove(s, a)) < Measure(n, s)
  {
    if a.Spawn? { SumUpdate(s.downloads, s.started, Getting, Rank); }
  }

  lemma {:induction false} WriterRankDrops(job: Job, s: State, a: WriterStep)
    requires job.Valid() && Shape(|job.fileIDs|, s) && WriterEnabled(|job.fileIDs|, s, a)
    requires Ranked(|job.fileIDs|, WriterMove(job, s, a))
    ensures Measure(|job.fileIDs|, WriterMove(job, s, a)) < Measure(|job.fileIDs|, s)
  {
  }

  /** Every move of anybody brings the call closer to its end. */
  lemma {:induction false} StepDropsMeasure(job: Job, s: State, a: Step)
    requires Inv(job, s) && Enabled(job, s, a)
    ensures Inv(job, Apply(job, s, a))
    ensures Measure(|job.fileIDs|, Apply(job, s, a)) < Measure(|job.fileIDs|, s)
  {
    StepKeepsInv(job, s, a);
    var n := |job.fileIDs|;
    match a
    case Producer(p) => ProducerRankDrops(n, s, p);
    case Download(i, d) => DownloadRankDrops(n, job.sources[i], NameOf(job, i), s, i, d);
    case Writer(w) => WriterRankDrops(job, s, w);
    case CancelParent => assert Measure(n, s.(parentDone := true, dlDone := true)) + 1 == Measure(n, s);
  }

  // ---------------------------------------------------------------- whole calls

  /** A run: a first state and then one enabled move after another. */
  ghost predicate IsRun(job: Job, run: seq<State>) {
    && Proper(job) && |run| > 0
    && (exists cancelled: bool :: run[0] == Initial(|job.fileIDs|, cancelled))
    && (forall k :: 0 <= k < |run| ==> |run[k].downloads| == |run[k].results| == |job.fileIDs|)
    && (forall k :: 0 <= k < |run| - 1 ==> Moves(job, run[k], run[k + 1]))
  }

  ghost predicate Moves(job: Job, s: State, t: State)
    requires job.Valid() && |s.downloads| == |s.results| == |job.fileIDs|
  {
    exists a :: Enabled(job, s, a) && t == Apply(job, s, a)
  }

  lemma {:induction false} RunKeepsInv(job: Job, run: seq<State>, k: nat)
    requires IsRun(job, run) && k < |run|
    ensures Inv(job, run[k])
    ensures Inv(job, run[0]) && Measure(|job.fileIDs|, run[k]) + k <= Measure(|job.fileIDs|, run[0])
  {
    var cancelled :| run[0] == Initial(|job.fileIDs|, cancelled);
    InitialInv(job, cancelled);
    if k > 0 {
      RunKeepsInv(job, run, k - 1);
      assert Moves(job, run[k - 1], run[(k - 1) + 1]);
      var a :| Enabled(job, run[k - 1], a) && run[k] == Apply(job, run[k - 1], a);
      StepDropsMeasure(job, run[k - 1], a);
    }
  }

  /** Every schedule is finite: at most 11 moves per chunk and 7 more. */
  lemma {:induction false} RunsAreBounded(job: Job, run: seq<State>)
    requires IsRun(job, run)
    ensures |run| <= 11 * |job.fileIDs| + 8
  {
    RunKeepsInv(job, run, |run| - 1);
    SumUniform(run[0].downloads, Rank, 4);
  }

  /** A schedule that cannot go on has returned: there is no deadlock, whatever failed or was
      cancelled; and then the producer and every downloader are gone. */
  lemma {:induction false} StuckRunsHaveReturned(job: Job, run: seq<State>)
    requires IsRun(job, run)
    requires forall a :: Enabled(job, run[|run| - 1], a) ==> a.CancelParent?
    ensures var s := run[|run| - 1];
            s.writer.Returned? && s.producer.ProducerGone? && s.scratch == map[] &&
            forall i :: 0 <= i < |s.downloads| ==> s.downloads[i].NotStarted? || s.downloads[i].DownloadGone?
  {
    var s := run[|run| - 1];
    RunKeepsInv(job, run, |run| - 1);
    if !s.writer.Returned? {
      var a := NextStep(job, s);
      assert false;
    }
    NothingOutlivesTheCall(job, s, CancelParent);
  }

  /** Schedule independence: without a cancelled caller, whatever run returns, returns what the
      sequential merge returns; the merged file exists exactly on success, with those bytes. */
  lemma {:induction false} EveryScheduleIsSequential(job: Job, run: seq<State>)
    requires IsRun(job, run) && run[|run| - 1].writer.Returned? && !run[|run| - 1].parentDone
    ensures var s := run[|run| - 1];
            s.writer.outcome == SequentialMerge(job) &&
            s.merged == (match s.writer.outcome case Merged(bytes) => Some(bytes) case Failed(_) => None)
  {
    RunKeepsInv(job, run, |run| - 1);
  }

  /** Cancelling may only turn the answer into an error that names the cancellation: a success
      is always the whole merge, and a failure never leaves a merged file. */
  lemma {:induction false} CancelledRunsNeverLie(job: Job, run: seq<State>)
    requires IsRun(job, run) && run[|run| - 1].writer.Returned?
    ensures var s := run[|run| - 1];
            match s.writer.outcome
            case Merged(bytes) =>
              SequentialMerge(job) == Merged(bytes) && s.merged == Some(bytes)
            case Failed(e) =>
              s.merged == None && (SequentialMerge(job) == Failed(e) || e.ContextDone? || e.DownloadCancelled?)
  {
    RunKeepsInv(job, run, |run| - 1);
  }

  ghost function WindowNames(job: Job, lo: nat, hi: nat): (names: set<string>)
    requires job.Valid() && lo <= hi <= |job.fileIDs|
    ensures forall i: nat :: lo <= i < hi ==> NameOf(job, i) in names
    ensures |names| <= hi - lo
    decreases hi - lo
  {
    if lo == hi then {} else WindowNames(job, lo, hi - 1) + {NameOf(job, hi - 1)}
  }

  /** At every moment of every run: the held slots are those of one contiguous window of indices, at
      most 32 of them, and the download directory holds at most that many chunk files besides those
      the system refused to delete. */
  lemma {:induction false} DiskBound(job: Job, run: seq<State>, k: nat)
    requires IsRun(job, run) && k < |run|
    ensures var s := run[k];
            && (forall i: nat :: i in s.holders <==> s.appended <= i < NextSlot(s))
            && s.slots == |s.holders| <= 32
            && |s.scratch.Keys - s.undeleted| <= 32
  {
    RunKeepsInv(job, run, k);
    var s := run[k];
    HolderCount(s.holders, s.appended, NextSlot(s));
    var names := WindowNames(job, s.appended, s.started);
    SubsetSize(s.scratch.Keys - s.undeleted, names);
  }

  // ---------------------------------------------------------------- runs and their moves

  /** A run that takes these moves. */
  ghost predicate Takes(job: Job, run: seq<State>, steps: seq<Step>) {
    && IsRun(job, run) && |run| == |steps| + 1
    && (forall k :: 0 <= k < |steps| ==> Enabled(job, run[k], steps[k]) && run[k + 1] == Apply(job, run[k], steps[k]))
  }

  /** The file was one whose os.Remove failed. */
  ghost predicate RefusedAt(run: seq<State>, steps: seq<Step>, j: nat, name: string) {
    && j < |steps| && j < |run| && steps[j] == Writer(Delete(false))
    && run[j].writer == Deleting(name)
  }

  /** What an append leaves in the merged file: the whole chunk more, or as much as was written. */
  lemma {:induction false} AppendLeaves(job: Job, run: seq<State>, steps: seq<Step>, k: nat)
    requires Takes(job, run, steps) && k < |steps| && steps[k] == Writer(Append)
    ensures var s := run[k];
            && s.merged.Some? && s.appended < |job.fileIDs| && job.sources[s.appended].Available?
            && run[k + 1].merged ==
               Some(s.merged.value + (match job.faults[s.appended]
                                      case NoFault => job.sources[s.appended].bytes
                                      case OpenFault => []
                                      case CopyFault(written) => written))
  {
    RunKeepsInv(job, run, k);
    var s := run[k];
    assert s.writer.Appending? && ResultRight(job, s, s.appended, ChunkFile(s.writer.name));
    assert s.merged.value + [] == s.merged.value;
  }

  /** What a download leaves in its file: nothing yet, the chunk, or as much of it as arrived. */
  lemma {:induction false} DownloadLeaves(job: Job, run: seq<State>, steps: seq<Step>, k: nat, i: nat)
    requires Takes(job, run, steps) && k < |steps| && i < |job.fileIDs|
    ensures steps[k] == Download(i, BeginSave) ==> run[k + 1].scratch == run[k].scratch[NameOf(job, i) := []]
    ensures steps[k] == Download(i, FinishSave) ==>
              job.sources[i].Available? && run[k + 1].scratch == run[k].scratch[NameOf(job, i) := job.sources[i].bytes]
    ensures steps[k] == Download(i, FailSave) ==>
              job.sources[i].Broken? && run[k + 1].scratch == run[k].scratch[NameOf(job, i) := job.sources[i].partial]
  {
  }

  /** A file counts as undeleted only after its own deletion failed. */
  lemma {:induction false} UndeletedWasRefused(job: Job, run: seq<State>, steps: seq<Step>, k: nat, name: string)
    requires Takes(job, run, steps) && k < |run| && name in run[k].undeleted
    ensures exists j: nat :: j < k && RefusedAt(run, steps, j, name)
  {
    if k > 0 {
      assert run[(k - 1) + 1] == Apply(job, run[k - 1], steps[k - 1]);
      if name in run[k - 1].undeleted {
        UndeletedWasRefused(job, run, steps, k - 1, name);
      } else {
        assert RefusedAt(run, steps, k - 1, name);
      }
    }
  }

  /** What the deletion of an appended chunk's file does: the file is gone, or it stays and is the
      one file more that counts as undeleted. */
  lemma {:induction false} DeletionsHappen(job: Job, run: seq<State>, steps: seq<Step>, k: nat, removed: bool)
    requires Takes(job, run, steps) && k < |steps| && steps[k] == Writer(Delete(removed))
    ensures run[k].writer.Deleting?
    ensures var name, s, t := run[k].writer.name, run[k], run[k + 1];
            && (removed ==> t.scratch.Keys == s.scratch.Keys - {name} && t.undeleted == s.undeleted)
            && (!removed ==> t.scratch == s.scratch && t.undeleted == s.undeleted + {name})
  {
  }

  lemma {:induction false} SomeDeletionFailed(job: Job, run: seq<State>, steps: seq<Step>, k: nat, name: string)
    requires Takes(job, run, steps) && k < |run|
    ensures name in run[k].undeleted ==> Writer(Delete(false)) in steps[..k]
  {
    if name in run[k].undeleted {
      UndeletedWasRefused(job, run, steps, k, name);
      var j: nat :| j < k && RefusedAt(run, steps, j, name);
      assert steps[..k][j] == Writer(Delete(false));
    }
  }

  /** If the system deletes what it is asked to, at most 32 chunk files exist at any moment. */
  lemma {:induction false} AtMost32Files(job: Job, run: seq<State>, steps: seq<Step>, k: nat)
    requires Takes(job, run, steps) && k < |run| && Writer(Delete(false)) !in steps[..k]
    ensures |run[k].scratch| <= 32
  {
    DiskBound(job, run, k);
    forall name ensures name !in run[k].undeleted {
      SomeDeletionFailed(job, run, steps, k, name);
    }
    assert run[k].scratch.Keys - run[k].undeleted == run[k].scratch.Keys;
  }

  /** The writer of a call that was cancelled before it began. */
  ghost predicate GivesUpAtOnce(s: State) {
    && s.parentDone && s.appended == 0
    && match s.writer
       case LoopHead => true
       case Aborting(e) => e == ContextDone
       case AbortJoining(e) => e == ContextDone
       case Returned(outcome) => outcome == Failed(ContextDone)
       case _ => false
  }

  lemma {:induction false} GivesUpStep(job: Job, s: State, a: Step)
    requires job.Valid() && |s.downloads| == |s.results| == |job.fileIDs| > 0
    requires Enabled(job, s, a) && GivesUpAtOnce(s)
    ensures GivesUpAtOnce(Apply(job, s, a))
  {
  }

  /** A call whose context is done before it begins reports that, and nothing else. */
  lemma {:induction false} CancelledBeforeFails(job: Job, run: seq<State>, k: nat)
    requires IsRun(job, run) && run[0].parentDone && k < |run|
    ensures GivesUpAtOnce(run[k])
    ensures run[k].writer.Returned? ==> run[k].writer.outcome == Failed(ContextDone)
  {
    if k > 0 {
      CancelledBeforeFails(job, run, k - 1);
      assert Moves(job, run[k - 1], run[(k - 1) + 1]);
      var a :| Enabled(job, run[k - 1], a) && run[k] == Apply(job, run[k - 1], a);
      GivesUpStep(job, run[k - 1], a);
    }
  }

  lemma {:induction false} HolderCount(holders: set<nat>, lo: nat, hi: nat)
    requires lo <= hi && forall i: nat :: i in holders <==> lo <= i < hi
    ensures |holders| == hi - lo
    decreases hi - lo
  {
    if lo == hi {
      assert holders == {};
    } else {
      HolderCount(holders - {hi - 1}, lo, hi - 1);
      assert holders == (holders - {hi - 1}) + {hi - 1};
    }
  }

  // ---------------------------------------------------------------- the call itself

  ghost predicate NeverCancels(schedule: (nat, State) -> Step) {
    forall clock, s :: !schedule(clock, s).CancelParent?
  }

  lemma {:induction false} OnlyTheCallerCancels(job: Job, s: State, a: Step)
    requires job.Valid() && |s.downloads| == |s.results| == |job.fileIDs| && Enabled(job, s, a)
    ensures Apply(job, s, a).parentDone == (s.parentDone || a.CancelParent?)
  {
  }

  /**
   * MergeRawAudio under an arbitrary scheduler: at every point `schedule` names the next move,
   * cancellation by the caller included; a move that is not possible yields to one that is.
   */
  method MergeRawAudio(job: Job, cancelledBefore: bool, schedule: (nat, State) -> Step)
    returns (outcome: Outcome, merged: Option<Bytes>)
    requires job.Valid()
    ensures !cancelledBefore && NeverCancels(schedule) ==> outcome == SequentialMerge(job)
    ensures outcome.Merged? ==> outcome == SequentialMerge(job) && merged == Some(outcome.bytes)
    ensures cancelledBefore && Proper(job) ==> outcome == Failed(ContextDone)
    ensures outcome.Failed? ==> merged == None
    ensures outcome.Failed? ==>
              outcome == SequentialMerge(job) || outcome.error.ContextDone? || outcome.error.DownloadCancelled?
  {
    if |job.fileIDs| == 0 {
      return Failed(NoFiles), None;
    }
    if job.createFails || job.tempDirFails {
      // A merged file already created is removed by the deferred cleanup.
      return Failed(SetupFailed), None;
    }
    var s := Initial(|job.fileIDs|, cancelledBefore);
    InitialInv(job, cancelledBefore);
    var clock := 0;
    while !s.writer.Returned?
      invariant Inv(job, s)
      invariant !cancelledBefore && NeverCancels(schedule) ==> !s.parentDone
      invariant cancelledBefore ==> GivesUpAtOnce(s)
      decreases Measure(|job.fileIDs|, s)
    {
      var a := schedule(clock, s);
      if !Enabled(job, s, a) {
        a := NextStep(job, s);
      }
      StepDropsMeasure(job, s, a);
      OnlyTheCallerCancels(job, s, a);
      if cancelledBefore { GivesUpStep(job, s, a); }
      s := Apply(job, s, a);
      clock := clock + 1;
    }
    outcome, merged := s.writer.outcome, s.merged;
  }
}
