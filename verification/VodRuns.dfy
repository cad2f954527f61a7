/**
 * internal/server/vod.go under concurrency, for one stream of fixed media type: any number of
 * requests for its VOD, each a sequence of separate steps, the builds they start, and the deletion of
 * the stream (internal/server/lifecycle.go), which deletes its rows before it forgets the build.
 */
module VodRuns {
  import opened Prelude

  datatype JobState = Running | Done | Failed

  /** The goroutine of a job: before its upload, after it, or over. */
  datatype Build = Working | Uploaded | Ended

  /** A request: its stream and media found; its job looked up; job not running; nothing listed in
      storage; chunk list read. */
  datatype Request =
    | Arrived
    | Looked(job: nat)
    | NotRunning
    | NothingListed
    | HasChunks
    | Over

  datatype State = State(
    rows: bool,                    // the stream, ended, and lines with media are stored
    forgetting: nat,               // removeStream calls between their delete and their forget
    jobs: map<nat, JobState>,
    current: Option<nat>,          // the registry's entry for the stream
    builds: map<nat, Build>,
    requests: map<nat, Request>,
    artifacts: nat)                // renders in the stream's VOD folder

  datatype Step =
    | Store                            // the worker stores the stream, its lines and media (again)
    | DeleteRows(forgets: bool)        // removeStream, which then forgets; or retention, which does not
    | Forget
    | Purge                            // the media folder is deleted
    | Arrive(r: nat)                   // any other request is refused
    | LookUp(r: nat)                   // registry get
    | ReadStatus(r: nat)
    | List(r: nat, answers: bool)      // a failed listing ends the request
    | ReadChunks(r: nat, some: bool)   // so does a failed read, or an empty list
    | Claim(r: nat, job: nat)
    | Upload(j: nat)
    | FinishDone(j: nat)
    | FinishFailed(j: nat)

  predicate Enabled(s: State, a: Step) {
    match a
    case Store => true
    case DeleteRows(_) => true
    case Forget => s.forgetting > 0
    case Purge => true
    case Arrive(r) => r !in s.requests && s.rows
    case LookUp(r) => r in s.requests && s.requests[r].Arrived?
    case ReadStatus(r) => r in s.requests && s.requests[r].Looked? && s.requests[r].job in s.jobs
    case List(r, _) => r in s.requests && s.requests[r].NotRunning?
    case ReadChunks(r, some) => r in s.requests && s.requests[r].NothingListed? && (some ==> s.rows)
    case Claim(r, job) =>
      r in s.requests && s.requests[r].HasChunks? && job !in s.jobs && job !in s.builds
    case Upload(j) => j in s.builds && s.builds[j].Working?
    case FinishDone(j) => j in s.builds && s.builds[j].Uploaded? && j in s.jobs
    case FinishFailed(j) => j in s.builds && s.builds[j].Working? && j in s.jobs
  }

  predicate CurrentRuns(s: State) {
    s.current.Some? && s.current.value in s.jobs && s.jobs[s.current.value].Running?
  }

  function Apply(s: State, a: Step): State
    requires Enabled(s, a)
  {
    match a
    case Store => s.(rows := true)
    case DeleteRows(forgets) => s.(rows := false, forgetting := s.forgetting + if forgets then 1 else 0)
    case Forget => s.(current := None, forgetting := s.forgetting - 1)
    case Purge => s.(artifacts := 0)
    case Arrive(r) => s.(requests := s.requests[r := Arrived])
    case LookUp(r) =>
      s.(requests := s.requests[r := match s.current case Some(j) => Looked(j) case None => NotRunning])
    case ReadStatus(r) =>
      s.(requests := s.requests[r := if s.jobs[s.requests[r].job].Running? then Over else NotRunning])
    case List(r, answers) =>
      s.(requests := s.requests[r := if !answers || s.artifacts > 0 then Over else NothingListed])
    case ReadChunks(r, some) => s.(requests := s.requests[r := if some then HasChunks else Over])
    case Claim(r, job) =>
      var t := s.(requests := s.requests[r := Over]);
      if CurrentRuns(s) then t
      else
        t.(jobs := t.jobs[job := Running], current := Some(job), builds := t.builds[job := Working])
    case Upload(j) => s.(builds := s.builds[j := Uploaded], artifacts := s.artifacts + 1)
    case FinishDone(j) => s.(builds := s.builds[j := Ended], jobs := s.jobs[j := Done])
    case FinishFailed(j) => s.(builds := s.builds[j := Ended], jobs := s.jobs[j := Failed])
  }

  const EMPTY: State := State(false, 0, map[], None, map[], map[], 0)

  ghost predicate Linked(run: seq<State>, steps: seq<Step>) {
    && |run| == |steps| + 1
    && forall k :: 0 <= k < |steps| ==> Enabled(run[k], steps[k]) && run[k + 1] == Apply(run[k], steps[k])
  }

  ghost predicate IsRun(run: seq<State>, steps: seq<Step>) {
    Linked(run, steps) && run[0] == EMPTY
  }

  // ---------------------------------------------------------------- the steps that do harm

  ghost predicate UnderWay(s: State, j: nat) {
    j in s.builds && !s.builds[j].Ended?
  }

  ghost predicate IsWorking(s: State, j: nat) {
    j in s.builds && s.builds[j].Working?
  }

  /** A request that has listed and found nothing: it no longer looks at storage before its claim. */
  predicate PastListing(s: State, r: nat) {
    r in s.requests && (s.requests[r].NothingListed? || s.requests[r].HasChunks?)
  }

  predicate HoldsChunks(s: State, r: nat) {
    r in s.requests && s.requests[r].HasChunks?
  }

  ghost predicate SomePastListing(s: State) {
    exists r :: PastListing(s, r)
  }

  ghost predicate SomeHoldsChunks(s: State) {
    exists r :: HoldsChunks(s, r)
  }

  /** Some request can still come to a claim: it has its chunk list, or the stream is stored, or it
      will be, if that is to be reckoned with (`restoring`). */
  ghost predicate CanClaim(s: State, restoring: bool) {
    restoring || s.rows || SomeHoldsChunks(s)
  }

  /** Some request can still come to a claim without looking at storage again. */
  ghost predicate CanClaimBlindly(s: State, restoring: bool) {
    SomeHoldsChunks(s) || ((restoring || s.rows) && SomePastListing(s))
  }

  /** The record of a build under way is forgotten while a request can still come to a claim. */
  ghost predicate DoublesBuild(s: State, a: Step, restoring: bool) {
    a.Forget? && CanClaim(s, restoring) && exists j :: UnderWay(s, j)
  }

  /** The registry stops showing a running build while a request can still come to a claim: blindly,
      next to the render that is stored; or at all, next to a build that has yet to upload. */
  ghost predicate DoublesRender(s: State, a: Step, restoring: bool) {
    match a
    case FinishDone(j) =>
      s.artifacts >= 1 && CanClaimBlindly(s, restoring) && (s.current == Some(j) || !CurrentRuns(s))
    case Forget =>
      || (CanClaim(s, restoring) && exists j :: IsWorking(s, j))
      || (s.artifacts >= 1 && CurrentRuns(s) && CanClaimBlindly(s, restoring))
    case _ => false
  }

  ghost predicate NeverDoublesBuild(run: seq<State>, steps: seq<Step>)
    requires |run| == |steps| + 1
  {
    forall k :: 0 <= k < |steps| ==> !DoublesBuild(run[k], steps[k], true)
  }

  ghost predicate NeverDoublesRender(run: seq<State>, steps: seq<Step>)
    requires |run| == |steps| + 1
  {
    forall k :: 0 <= k < |steps| ==> !DoublesRender(run[k], steps[k], true)
  }

  // ---------------------------------------------------------------- what every run keeps

  ghost predicate Consistent(s: State) {
    && s.jobs.Keys == s.builds.Keys
    && (forall j :: j in s.builds && j in s.jobs ==> (s.builds[j].Ended? <==> !s.jobs[j].Running?))
    && (s.current.Some? ==> s.current.value in s.jobs)
    && (forall r :: r in s.requests && s.requests[r].Looked? ==> s.requests[r].job in s.jobs)
  }

  lemma {:induction false} ConsistentStep(s: State, a: Step)
    requires Consistent(s) && Enabled(s, a)
    ensures Consistent(Apply(s, a))
  {
  }

  lemma {:induction false} AlwaysConsistent(run: seq<State>, steps: seq<Step>, k: nat)
    requires IsRun(run, steps) && k < |run|
    ensures Consistent(run[k])
  {
    if k > 0 {
      AlwaysConsistent(run, steps, k - 1);
      assert run[(k - 1) + 1] == Apply(run[k - 1], steps[k - 1]);
      ConsistentStep(run[k - 1], steps[k - 1]);
    }
  }

  // ---------------------------------------------------------------- one build at a time

  /** One build at most, and the registry knows it. */
  ghost predicate Single(s: State) {
    && Consistent(s)
    && (forall i, j :: UnderWay(s, i) && UnderWay(s, j) ==> i == j)
    && (forall j: nat :: UnderWay(s, j) ==> s.current == Some(j))
  }

  lemma {:induction false} SingleStep(s: State, a: Step)
    requires Single(s) && Enabled(s, a) && !DoublesBuild(s, a, true)
    ensures Single(Apply(s, a))
  {
    ConsistentStep(s, a);
    var t := Apply(s, a);
    if a.Claim? && !CurrentRuns(s) {
      forall j ensures UnderWay(t, j) ==> j == a.job {
        assert !UnderWay(s, j);
      }
    } else {
      assert forall j :: UnderWay(t, j) ==> UnderWay(s, j);
    }
  }

  lemma {:induction false} StaysSingle(run: seq<State>, steps: seq<Step>, k: nat)
    requires Linked(run, steps) && Single(run[0]) && NeverDoublesBuild(run, steps) && k < |run|
    ensures Single(run[k])
  {
    if k > 0 {
      StaysSingle(run, steps, k - 1);
      assert run[(k - 1) + 1] == Apply(run[k - 1], steps[k - 1]);
      SingleStep(run[k - 1], steps[k - 1]);
    }
  }

  /** Single flight: at most one build is under way at any time, as long as none is forgotten while
      it is. */
  lemma {:induction false} SingleFlight(run: seq<State>, steps: seq<Step>, k: nat)
    requires IsRun(run, steps) && NeverDoublesBuild(run, steps) && k < |run|
    ensures Single(run[k])
    ensures forall i, j :: UnderWay(run[k], i) && UnderWay(run[k], j) ==> i == j
  {
    StaysSingle(run, steps, k);
  }

  // ---------------------------------------------------------------- one render

  /** What is stored and what is still to be uploaded makes one render at most. */
  ghost predicate Capped(s: State) {
    && s.artifacts <= 1
    && (forall i, j :: IsWorking(s, i) && IsWorking(s, j) ==> i == j)
    && (s.artifacts == 1 ==> forall j :: !IsWorking(s, j))
  }

  /** And no further one is coming: a build that has yet to upload is the registry's running one, and
      so is some build if a request goes on to a claim next to a stored render. */
  ghost predicate Guarded(s: State) {
    && Consistent(s) && Capped(s)
    && (forall j: nat :: IsWorking(s, j) ==> s.current == Some(j))
    && (s.artifacts == 1 && SomePastListing(s) ==> CurrentRuns(s))
  }

  lemma {:induction false} GuardedClaim(s: State, r: nat, job: nat)
    requires Guarded(s) && Enabled(s, Claim(r, job))
    ensures Guarded(Apply(s, Claim(r, job)))
  {
    var t := Apply(s, Claim(r, job));
    ConsistentStep(s, Claim(r, job));
    assert PastListing(s, r);
    if CurrentRuns(s) {
      assert forall j :: IsWorking(t, j) <==> IsWorking(s, j);
      assert CurrentRuns(t);
    } else {
      forall j ensures IsWorking(t, j) ==> j == job {
        assert !IsWorking(s, j);
      }
    }
  }

  lemma {:induction false} GuardedUpload(s: State, j: nat)
    requires Guarded(s) && Enabled(s, Upload(j))
    ensures Guarded(Apply(s, Upload(j)))
  {
    var t := Apply(s, Upload(j));
    ConsistentStep(s, Upload(j));
    assert IsWorking(s, j);
    forall i ensures !IsWorking(t, i) {
      if i != j { assert !IsWorking(s, i); }
    }
    assert CurrentRuns(t);
  }

  /** The other steps start no build and let no request past its listing next to a render. */
  lemma {:induction false} GuardedRest(s: State, a: Step)
    requires Guarded(s) && Enabled(s, a) && !DoublesRender(s, a, true) && !a.Claim? && !a.Upload?
    ensures Guarded(Apply(s, a))
  {
    var t := Apply(s, a);
    ConsistentStep(s, a);
    assert forall j :: IsWorking(t, j) ==> IsWorking(s, j);
    if t.artifacts == 1 {
      assert forall r :: PastListing(t, r) ==> PastListing(s, r);
    }
    if a.FinishFailed? { assert IsWorking(s, a.j); }
  }

  lemma {:induction false} GuardedStep(s: State, a: Step)
    requires Guarded(s) && Enabled(s, a) && !DoublesRender(s, a, true)
    ensures Guarded(Apply(s, a))
  {
    match a
    case Claim(r, job) => GuardedClaim(s, r, job);
    case Upload(j) => GuardedUpload(s, j);
    case _ => GuardedRest(s, a);
  }

  lemma {:induction false} StaysGuarded(run: seq<State>, steps: seq<Step>, k: nat)
    requires Linked(run, steps) && Guarded(run[0]) && NeverDoublesRender(run, steps) && k < |run|
    ensures Guarded(run[k])
  {
    if k > 0 {
      StaysGuarded(run, steps, k - 1);
      assert run[(k - 1) + 1] == Apply(run[k - 1], steps[k - 1]);
      GuardedStep(run[k - 1], steps[k - 1]);
    }
  }

  /** At most one render is stored at any time, as long as no step doubles it. */
  lemma {:induction false} AtMostOneArtifact(run: seq<State>, steps: seq<Step>, k: nat)
    requires IsRun(run, steps) && NeverDoublesRender(run, steps) && k < |run|
    ensures Guarded(run[k])
    ensures run[k].artifacts <= 1
  {
    StaysGuarded(run, steps, k);
  }

  // ---------------------------------------------------------------- continuations

  datatype Trace = Trace(run: seq<State>, steps: seq<Step>)

  ghost predicate Continues(t: Trace, s: State) {
    Linked(t.run, t.steps) && t.run[0] == s
  }

  ghost function Last(t: Trace): State
    requires Linked(t.run, t.steps)
  {
    t.run[|t.run| - 1]
  }

  /** No build completes and none is forgotten; the stream is stored again only when `restoring`. */
  predicate IsGentle(a: Step, restoring: bool) {
    !a.Forget? && !a.FinishDone? && (a.Store? ==> restoring)
  }

  ghost predicate Gentle(steps: seq<Step>, restoring: bool) {
    forall k :: 0 <= k < |steps| ==> IsGentle(steps[k], restoring)
  }

  ghost function Here(s: State): (t: Trace)
    ensures Continues(t, s) && Last(t) == s && t.steps == []
  {
    Trace([s], [])
  }

  ghost function Then(t: Trace, a: Step): (longer: Trace)
    requires Linked(t.run, t.steps) && Enabled(Last(t), a)
    ensures Continues(longer, t.run[0]) && Last(longer) == Apply(Last(t), a)
    ensures forall restoring :: Gentle(t.steps, restoring) && IsGentle(a, restoring) ==> Gentle(longer.steps, restoring)
    ensures longer.steps == t.steps + [a]
  {
    Trace(t.run + [Apply(Last(t), a)], t.steps + [a])
  }

  lemma {:induction false} Fresh(s: set<nat>) returns (n: nat)
    ensures forall x :: x in s ==> x < n
  {
    if s == {} {
      n := 0;
    } else {
      var x := Pick(s);
      var m := Fresh(s - {x});
      assert s == (s - {x}) + {x};
      n := if m > x then m else x + 1;
    }
  }

  /** A request that finds nothing running and nothing stored, and reads some chunks. */
  ghost function AsksInVain(t: Trace, r: nat): (longer: Trace)
    requires Linked(t.run, t.steps) && Last(t).rows
    requires r !in Last(t).requests && Last(t).current.None? && Last(t).artifacts == 0
    ensures Continues(longer, t.run[0])
    ensures forall restoring :: Gentle(t.steps, restoring) ==> Gentle(longer.steps, restoring)
    ensures Last(longer) == Last(t).(requests := Last(t).requests[r := HasChunks])
  {
    Then(Then(Then(Then(t, Arrive(r)), LookUp(r)), List(r, true)), ReadChunks(r, true))
  }

  /** Registry, builds and renders have not moved. */
  ghost predicate SameBuilds(s: State, t: State) {
    t.jobs == s.jobs && t.current == s.current && t.builds == s.builds && t.artifacts == s.artifacts
  }

  /** The stream is stored, at once or again. */
  lemma {:induction false} Stored(t: Trace, restoring: bool) returns (longer: Trace)
    requires Linked(t.run, t.steps) && Gentle(t.steps, restoring) && (restoring || Last(t).rows)
    ensures Continues(longer, t.run[0]) && Gentle(longer.steps, restoring)
    ensures Last(longer) == Last(t).(rows := true)
  {
    longer := t;
    if !Last(t).rows {
      longer := Then(t, Store);
    }
  }

  /** A request that can claim blindly comes to hold a chunk list. */
  lemma {:induction false} ComesToHold(t: Trace, restoring: bool) returns (longer: Trace, r: nat)
    requires Linked(t.run, t.steps) && Gentle(t.steps, restoring) && CanClaimBlindly(Last(t), restoring)
    ensures Continues(longer, t.run[0]) && Gentle(longer.steps, restoring)
    ensures HoldsChunks(Last(longer), r) && SameBuilds(Last(t), Last(longer))
  {
    if SomeHoldsChunks(Last(t)) {
      r :| HoldsChunks(Last(t), r);
      longer := t;
    } else {
      r :| PastListing(Last(t), r);
      assert !HoldsChunks(Last(t), r);
      var stored := Stored(t, restoring);
      longer := Then(stored, ReadChunks(r, true));
    }
  }

  /** So does a new one, with no build in the registry and nothing in storage. */
  lemma {:induction false} NewcomerHolds(t: Trace, restoring: bool) returns (longer: Trace, r: nat)
    requires Linked(t.run, t.steps) && Gentle(t.steps, restoring) && (restoring || Last(t).rows)
    requires Last(t).current.None? && Last(t).artifacts == 0
    ensures Continues(longer, t.run[0]) && Gentle(longer.steps, restoring)
    ensures HoldsChunks(Last(longer), r) && SameBuilds(Last(t), Last(longer))
  {
    longer := Stored(t, restoring);
    r := Fresh(Last(longer).requests.Keys);
    longer := AsksInVain(longer, r);
  }

  /** With no running build in the registry, a request with a chunk list starts one. */
  lemma {:induction false} StartsBuild(t: Trace, restoring: bool, r: nat) returns (longer: Trace, job: nat)
    requires Linked(t.run, t.steps) && Gentle(t.steps, restoring)
    requires !CurrentRuns(Last(t)) && HoldsChunks(Last(t), r)
    ensures Continues(longer, t.run[0]) && Gentle(longer.steps, restoring)
    ensures job !in Last(t).builds && Last(longer).builds == Last(t).builds[job := Working]
    ensures Last(longer).artifacts == Last(t).artifacts
  {
    job := Fresh(Last(t).jobs.Keys + Last(t).builds.Keys);
    longer := Then(t, Claim(r, job));
  }

  // ---------------------------------------------------------------- harm is done

  ghost predicate TwoUnderWay(s: State) {
    exists i, j :: i != j && UnderWay(s, i) && UnderWay(s, j)
  }

  /** Without another completion or forget, two renders can come to be stored at the same time. */
  ghost predicate CanStoreTwo(s: State, restoring: bool) {
    exists t: Trace :: Continues(t, s) && Gentle(t.steps, restoring) && Last(t).artifacts >= 2
  }

  ghost predicate CanRunTwo(s: State, restoring: bool) {
    exists t: Trace :: Continues(t, s) && Gentle(t.steps, restoring) && TwoUnderWay(Last(t))
  }

  lemma {:induction false} SameRequests(s: State, t: State, restoring: bool)
    requires t.requests == s.requests && t.rows == s.rows
    ensures CanClaim(t, restoring) == CanClaim(s, restoring)
    ensures CanClaimBlindly(t, restoring) == CanClaimBlindly(s, restoring)
  {
    assert forall r :: PastListing(t, r) == PastListing(s, r) && HoldsChunks(t, r) == HoldsChunks(s, r);
  }

  /** A build started blindly adds its render to the stored one. */
  lemma {:induction false} BlindClaim(u: State, restoring: bool)
    requires u.artifacts >= 1 && CanClaimBlindly(u, restoring) && !CurrentRuns(u)
    ensures CanStoreTwo(u, restoring)
  {
    var t, r := ComesToHold(Here(u), restoring);
    var job;
    t, job := StartsBuild(t, restoring, r);
    t := Then(t, Upload(job));
    assert Continues(t, u) && Last(t).artifacts >= 2;
  }

  /** With an empty registry and folder, any request that can claim starts a build. */
  lemma {:induction false} AnyClaim(u: State, before: Trace, restoring: bool) returns (t: Trace, job: nat)
    requires Continues(before, u) && Gentle(before.steps, restoring)
    requires CanClaim(Last(before), restoring) && Last(before).current.None? && Last(before).artifacts == 0
    ensures Continues(t, u) && Gentle(t.steps, restoring)
    ensures job !in Last(before).builds && Last(t).builds == Last(before).builds[job := Working]
    ensures Last(t).artifacts == 0
  {
    var r;
    if SomeHoldsChunks(Last(before)) {
      t, r := ComesToHold(before, restoring);
    } else {
      t, r := NewcomerHolds(before, restoring);
    }
    t, job := StartsBuild(t, restoring, r);
  }

  lemma {:induction false} HarmfulFinish(s: State, j: nat, restoring: bool)
    requires Consistent(s) && Enabled(s, FinishDone(j)) && DoublesRender(s, FinishDone(j), restoring)
    ensures CanStoreTwo(Apply(s, FinishDone(j)), restoring)
  {
    var u := Apply(s, FinishDone(j));
    SameRequests(s, u, restoring);
    BlindClaim(u, restoring);
  }

  /** A forgotten build that has yet to upload gets a rival. */
  lemma {:induction false} ForgottenWorking(s: State, j: nat, restoring: bool)
    requires Enabled(s, Forget) && CanClaim(s, restoring) && IsWorking(s, j)
    ensures CanStoreTwo(Apply(s, Forget), restoring)
  {
    var u := Apply(s, Forget);
    SameRequests(s, u, restoring);
    var t := Here(u);
    if s.artifacts == 0 {
      var job;
      t, job := AnyClaim(u, t, restoring);
      t := Then(t, Upload(job));
    }
    t := Then(t, Upload(j));
    assert Continues(t, u) && Last(t).artifacts >= 2;
  }

  lemma {:induction false} HarmfulForget(s: State, restoring: bool)
    requires Enabled(s, Forget) && DoublesRender(s, Forget, restoring)
    ensures CanStoreTwo(Apply(s, Forget), restoring)
  {
    if CanClaim(s, restoring) && exists j :: IsWorking(s, j) {
      var j :| IsWorking(s, j);
      ForgottenWorking(s, j, restoring);
    } else {
      SameRequests(s, Apply(s, Forget), restoring);
      BlindClaim(Apply(s, Forget), restoring);
    }
  }

  /** The folder may be deleted, and then any request that can claim starts a second build. */
  lemma {:induction false} ForgottenBuildGetsRival(s: State, restoring: bool)
    requires Enabled(s, Forget) && DoublesBuild(s, Forget, restoring)
    ensures CanRunTwo(Apply(s, Forget), restoring)
  {
    var u := Apply(s, Forget);
    var j :| UnderWay(s, j);
    var purged := Then(Here(u), Purge);
    SameRequests(s, Last(purged), restoring);
    var t, job := AnyClaim(u, purged, restoring);
    assert UnderWay(Last(t), j) && UnderWay(Last(t), job);
  }

  /** From every reachable state, whatever happened before, these steps let two renders come to be
      stored, and two builds to be under way. */
  lemma {:induction false} HarmIsDone(run: seq<State>, steps: seq<Step>, k: nat, a: Step, restoring: bool)
    requires IsRun(run, steps) && k < |run| && Enabled(run[k], a)
    ensures DoublesRender(run[k], a, restoring) ==> CanStoreTwo(Apply(run[k], a), restoring)
    ensures DoublesBuild(run[k], a, restoring) ==> CanRunTwo(Apply(run[k], a), restoring)
  {
    AlwaysConsistent(run, steps, k);
    if DoublesBuild(run[k], a, restoring) { ForgottenBuildGetsRival(run[k], restoring); }
    if DoublesRender(run[k], a, restoring) {
      match a
      case FinishDone(j) => HarmfulFinish(run[k], j, restoring);
      case Forget => HarmfulForget(run[k], restoring);
    }
  }

  // ---------------------------------------------------------------- no other step does harm

  /** Nobody can claim: the stream is not stored and no request has a chunk list. */
  ghost predicate Stalled(s: State) {
    !s.rows && !SomeHoldsChunks(s)
  }

  lemma {:induction false} StalledStep(s: State, a: Step)
    requires Stalled(s) && Enabled(s, a) && !a.Store?
    ensures Stalled(Apply(s, a)) && !a.Claim?
    ensures forall j :: UnderWay(Apply(s, a), j) ==> UnderWay(s, j)
    ensures Capped(s) ==> Capped(Apply(s, a))
  {
    var t := Apply(s, a);
    assert a.Claim? ==> HoldsChunks(s, a.r);
    forall r ensures !HoldsChunks(t, r) {
      assert !HoldsChunks(s, r);
    }
    if Capped(s) {
      assert forall j :: IsWorking(t, j) ==> IsWorking(s, j);
      if a.Upload? {
        assert IsWorking(s, a.j) && !IsWorking(t, a.j);
      }
    }
  }

  lemma {:induction false} StaysStalled(t: Trace, k: nat)
    requires Linked(t.run, t.steps) && Gentle(t.steps, false) && Stalled(t.run[0]) && k < |t.run|
    ensures Stalled(t.run[k])
    ensures forall j :: UnderWay(t.run[k], j) ==> UnderWay(t.run[0], j)
    ensures Capped(t.run[0]) ==> Capped(t.run[k])
  {
    if k > 0 {
      StaysStalled(t, k - 1);
      assert t.run[(k - 1) + 1] == Apply(t.run[k - 1], t.steps[k - 1]);
      assert IsGentle(t.steps[k - 1], false);
      StalledStep(t.run[k - 1], t.steps[k - 1]);
    }
  }

  lemma {:induction false} GuardedStoresOne(u: State, restoring: bool)
    requires Guarded(u)
    ensures !CanStoreTwo(u, restoring)
  {
    forall t: Trace | Continues(t, u) && Gentle(t.steps, restoring) ensures Last(t).artifacts < 2 {
      assert forall k :: 0 <= k < |t.steps| ==> IsGentle(t.steps[k], restoring);
      StaysGuarded(t.run, t.steps, |t.steps|);
    }
  }

  lemma {:induction false} StalledStoresOne(u: State)
    requires Stalled(u) && Capped(u)
    ensures !CanStoreTwo(u, false)
  {
    forall t: Trace | Continues(t, u) && Gentle(t.steps, false) ensures Last(t).artifacts < 2 {
      StaysStalled(t, |t.steps|);
    }
  }

  lemma {:induction false} SingleRunsOne(u: State, restoring: bool)
    requires Single(u)
    ensures !CanRunTwo(u, restoring)
  {
    forall t: Trace | Continues(t, u) && Gentle(t.steps, restoring) ensures !TwoUnderWay(Last(t)) {
      assert forall k :: 0 <= k < |t.steps| ==> IsGentle(t.steps[k], restoring);
      StaysSingle(t.run, t.steps, |t.steps|);
    }
  }

  lemma {:induction false} StalledRunsOne(u: State)
    requires Stalled(u) && forall i, j :: UnderWay(u, i) && UnderWay(u, j) ==> i == j
    ensures !CanRunTwo(u, false)
  {
    forall t: Trace | Continues(t, u) && Gentle(t.steps, false) ensures !TwoUnderWay(Last(t)) {
      StaysStalled(t, |t.steps|);
    }
  }

  /** Harm that only a stream stored again could do leaves nobody who can claim. */
  lemma {:induction false} OnlyByRestoring(s: State, a: Step)
    requires Enabled(s, a)
    requires || (DoublesRender(s, a, true) && !DoublesRender(s, a, false) && Guarded(s))
             || (DoublesBuild(s, a, true) && !DoublesBuild(s, a, false))
    ensures Stalled(Apply(s, a))
    ensures Capped(s) ==> Capped(Apply(s, a))
    ensures forall j :: UnderWay(Apply(s, a), j) ==> UnderWay(s, j)
  {
    var u := Apply(s, a);
    SameRequests(s, u, false);
    if SomePastListing(s) && s.artifacts >= 1 && Guarded(s) { assert CurrentRuns(s); }
    assert forall r :: HoldsChunks(u, r) == HoldsChunks(s, r);
    assert Stalled(s);
    assert forall j :: IsWorking(u, j) == IsWorking(s, j);
  }

  /** Where no harm was done before, two renders can come to be stored after a step exactly if it
      doubles the render: with the stream stored again among the later steps, or without. */
  lemma {:induction false} RenderHarmIsExact(run: seq<State>, steps: seq<Step>, k: nat, a: Step, restoring: bool)
    requires IsRun(run, steps) && NeverDoublesRender(run, steps) && k < |run| && Enabled(run[k], a)
    ensures CanStoreTwo(Apply(run[k], a), restoring) <==> DoublesRender(run[k], a, restoring)
  {
    AtMostOneArtifact(run, steps, k);
    var s := run[k];
    if DoublesRender(s, a, restoring) {
      HarmIsDone(run, steps, k, a, restoring);
    } else if !DoublesRender(s, a, true) {
      GuardedStep(s, a);
      GuardedStoresOne(Apply(s, a), restoring);
    } else {
      OnlyByRestoring(s, a);
      StalledStoresOne(Apply(s, a));
    }
  }

  /** And two builds can come to be under way exactly if it doubles the build. */
  lemma {:induction false} BuildHarmIsExact(run: seq<State>, steps: seq<Step>, k: nat, a: Step, restoring: bool)
    requires IsRun(run, steps) && NeverDoublesBuild(run, steps) && k < |run| && Enabled(run[k], a)
    ensures CanRunTwo(Apply(run[k], a), restoring) <==> DoublesBuild(run[k], a, restoring)
  {
    SingleFlight(run, steps, k);
    var s := run[k];
    if DoublesBuild(s, a, restoring) {
      HarmIsDone(run, steps, k, a, restoring);
    } else if !DoublesBuild(s, a, true) {
      SingleStep(s, a);
      SingleRunsOne(Apply(s, a), restoring);
    } else {
      OnlyByRestoring(s, a);
      StalledRunsOne(Apply(s, a));
    }
  }

  // ---------------------------------------------------------------- two runs that go wrong

  /** Two requests have found nothing and read the stream's chunks. */
  lemma {:induction false} TwoRequests() returns (t: Trace)
    ensures IsRun(t.run, t.steps) && Forget !in t.steps
    ensures Last(t) == EMPTY.(rows := true, requests := map[0 := HasChunks, 1 := HasChunks])
  {
    t := Then(Here(EMPTY), Store);
    t := AsksInVain(AsksInVain(t, 0), 1);
    assert Gentle(t.steps, true);
  }

  /** Deleting the stream during its build lets a request that already holds its chunk list start a
      second build beside the first, although the stream is not stored any more. */
  lemma {:induction false} ForgetBreaksSingleFlight() returns (t: Trace)
    ensures IsRun(t.run, t.steps) && !Last(t).rows
    ensures Last(t).builds == map[0 := Working, 1 := Working]
  {
    t := TwoRequests();
    t := Then(Then(Then(t, Claim(0, 0)), DeleteRows(true)), Forget);
    t := Then(t, Claim(1, 1));
  }

  /** One request has read its chunks; another one has built and stored the render meanwhile. */
  lemma {:induction false} SlowRequest() returns (t: Trace)
    ensures IsRun(t.run, t.steps) && Forget !in t.steps
    ensures Last(t) ==
              State(true, 0, map[1 := Done], Some(1), map[1 := Ended], map[0 := HasChunks, 1 := Over], 1)
  {
    t := TwoRequests();
    t := Then(Then(Then(t, Claim(1, 1)), Upload(1)), FinishDone(1));
  }

  /** A build that completes while another request is past its listing is followed by a second
      build and a second render, although nothing was ever forgotten. */
  lemma {:induction false} SlowRequestAddsSecondArtifact() returns (t: Trace)
    ensures IsRun(t.run, t.steps) && Forget !in t.steps
    ensures Last(t).artifacts == 2
  {
    t := SlowRequest();
    t := Then(Then(t, Claim(0, 2)), Upload(2));
  }

  // ---------------------------------------------------------------- what a request comes to

  /** Undisturbed, a request is answered at once exactly if the registry shows a running build or a
      render is stored, and otherwise goes on to read the chunks; nothing else moves. */
  lemma {:induction false} RequestDecides(s: State, r: nat) returns (t: Trace)
    requires Consistent(s) && r in s.requests && s.requests[r].Arrived?
    ensures Continues(t, s) && Gentle(t.steps, false)
    ensures Last(t) ==
              s.(requests := s.requests[r := if CurrentRuns(s) || s.artifacts > 0 then Over else NothingListed])
  {
    t := Then(Here(s), LookUp(r));
    if s.current.Some? {
      t := Then(t, ReadStatus(r));
    }
    if !CurrentRuns(s) {
      t := Then(t, List(r, true));
    }
  }

  /** And then, if the stream is still stored, it starts a build that stores its render and is done. */
  lemma {:induction false} BuildCompletes(s: State, r: nat) returns (t: Trace, job: nat)
    requires Consistent(s) && r in s.requests && s.requests[r].NothingListed? && s.rows && !CurrentRuns(s)
    ensures Continues(t, s) && job !in s.builds
    ensures var u := Last(t);
            && u.artifacts == s.artifacts + 1 && u.current == Some(job) && u.requests == s.requests[r := Over]
            && u.builds == s.builds[job := Ended] && u.jobs == s.jobs[job := Done]
  {
    t := Then(Here(s), ReadChunks(r, true));
    job := Fresh(s.jobs.Keys + s.builds.Keys);
    t := Then(Then(Then(t, Claim(r, job)), Upload(job)), FinishDone(job));
  }

  /** A build that fails stores nothing, and another request may build again. */
  lemma {:induction false} FailedBuildIsRetried(s: State, r: nat, next: nat) returns (t: Trace, job: nat)
    requires Consistent(s) && r in s.requests && s.requests[r].NothingListed? && s.rows && !CurrentRuns(s)
    requires next !in s.requests && s.artifacts == 0
    ensures Continues(t, s) && job !in s.jobs
    ensures var u := Last(t);
            && u.artifacts == 0 && u.current == Some(job) && u.jobs == s.jobs[job := Failed]
            && u.builds == s.builds[job := Ended] && u.requests == s.requests[r := Over][next := NothingListed]
  {
    t, job := BuildFails(s, r);
    t := Then(Then(t, Arrive(next)), LookUp(next));
    t := Then(Then(t, ReadStatus(next)), List(next, true));
  }

  lemma {:induction false} BuildFails(s: State, r: nat) returns (t: Trace, job: nat)
    requires Consistent(s) && r in s.requests && s.requests[r].NothingListed? && s.rows && !CurrentRuns(s)
    ensures Continues(t, s) && job !in s.jobs && job !in s.builds
    ensures Last(t) == s.(requests := s.requests[r := Over], current := Some(job),
                          jobs := s.jobs[job := Failed], builds := s.builds[job := Ended])
  {
    t := Then(Here(s), ReadChunks(r, true));
    job := Fresh(s.jobs.Keys + s.builds.Keys);
    t := Then(t, Claim(r, job));
    t := Then(t, FinishFailed(job));
  }
}
