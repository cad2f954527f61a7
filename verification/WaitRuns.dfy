/**
 * Long polls under concurrency (internal/notify/notify.go, internal/server/app.go): writers change
 * the store and then notify; waiters subscribe, read what they wait for piece by piece, and park.
 */
module WaitRuns {
  import opened Prelude

  /** Checking: subscribed to signal `signal`, has read the facts in `seen`, `hit` if one held. */
  datatype Waiter =
    | Idle
    | Checking(signal: nat, seen: set<nat>, hit: bool)
    | Parked(signal: nat)
    | Answered(ready: bool)

  /** A waiter's condition is that some fact of interest holds. Signals are numbered; all below
      `current` have been closed. */
  datatype State = State(
    facts: set<nat>,
    current: nat,
    unannounced: nat,               // writers between their first write and their Notify
    interest: map<nat, set<nat>>,
    waiters: map<nat, Waiter>)

  datatype Step =
    | Write(facts: set<nat>)        // the first write of a call that notifies in the end
    | WriteMore(facts: set<nat>)    // a later one before its Notify: the admin counter after the row
    | QuietWrite(facts: set<nat>)   // TTL cleanup: no notification, and no fact becomes true
    | Notify
    | Subscribe(w: nat)
    | Read(w: nat, fact: nat)
    | EndCheck(w: nat)
    | Wake(w: nat)
    | GiveUp(w: nat)                // deadline, cancelled request or shutdown

  ghost predicate Enabled(s: State, a: Step) {
    match a
    case Write(_) => true
    case WriteMore(_) => s.unannounced > 0
    case QuietWrite(facts) => facts <= s.facts
    case Notify => s.unannounced > 0
    case Subscribe(w) => w in s.waiters && w in s.interest && s.waiters[w].Idle?
    case Read(w, fact) => w in s.waiters && w in s.interest && s.waiters[w].Checking? && fact in s.interest[w]
    case EndCheck(w) =>
      w in s.waiters && w in s.interest && s.waiters[w].Checking? && s.waiters[w].seen == s.interest[w]
    case Wake(w) => w in s.waiters && s.waiters[w].Parked? && s.waiters[w].signal < s.current
    case GiveUp(w) => w in s.waiters && s.waiters[w].Parked?
  }

  ghost function Apply(s: State, a: Step): State
    requires Enabled(s, a)
  {
    match a
    case Write(facts) => s.(facts := facts, unannounced := s.unannounced + 1)
    case WriteMore(facts) => s.(facts := facts)
    case QuietWrite(facts) => s.(facts := facts)
    case Notify => s.(current := s.current + 1, unannounced := s.unannounced - 1)
    case Subscribe(w) => s.(waiters := s.waiters[w := Checking(s.current, {}, false)])
    case Read(w, fact) =>
      var c := s.waiters[w];
      s.(waiters := s.waiters[w := Checking(c.signal, c.seen + {fact}, c.hit || fact in s.facts)])
    case EndCheck(w) =>
      var c := s.waiters[w];
      s.(waiters := s.waiters[w := if c.hit then Answered(true) else Parked(c.signal)])
    case Wake(w) => s.(waiters := s.waiters[w := Idle])
    case GiveUp(w) => s.(waiters := s.waiters[w := Answered(false)])
  }

  /** A fact read as false is still false, or its writer has closed the signal or is about to. */
  ghost predicate Excused(s: State, signal: nat, fact: nat) {
    fact !in s.facts || s.unannounced > 0 || signal < s.current
  }

  ghost predicate Inv(s: State) {
    forall w :: w in s.waiters && w in s.interest ==>
      match s.waiters[w]
      case Checking(signal, seen, hit) =>
        signal <= s.current && (!hit ==> forall fact :: fact in seen ==> Excused(s, signal, fact))
      case Parked(signal) =>
        signal <= s.current && forall fact :: fact in s.interest[w] ==> Excused(s, signal, fact)
      case _ => true
  }

  lemma {:induction false} StepKeepsInv(s: State, a: Step)
    requires Inv(s) && Enabled(s, a)
    ensures Inv(Apply(s, a))
  {
  }

  ghost predicate Moves(s: State, t: State) {
    exists a :: Enabled(s, a) && t == Apply(s, a)
  }

  ghost predicate IsRun(run: seq<State>) {
    && |run| > 0
    && run[0].current == run[0].unannounced == 0
    && (forall w :: w in run[0].waiters ==> run[0].waiters[w].Idle?)
    && forall k :: 0 <= k < |run| - 1 ==> Moves(run[k], run[k + 1])
  }

  lemma {:induction false} RunKeepsInv(run: seq<State>, k: nat)
    requires IsRun(run) && k < |run|
    ensures Inv(run[k]) && run[k].interest == run[0].interest
  {
    if k > 0 {
      RunKeepsInv(run, k - 1);
      assert Moves(run[k - 1], run[(k - 1) + 1]);
      var a :| Enabled(run[k - 1], a) && run[k] == Apply(run[k - 1], a);
      StepKeepsInv(run[k - 1], a);
    }
  }

  /** No wakeup is lost: whenever the condition of a parked waiter holds, the signal it waits for is
      already closed, so that it can wake, or some writer has written and not yet notified. */
  lemma {:induction false} NoLostWakeup(run: seq<State>, k: nat, w: nat)
    requires IsRun(run) && k < |run|
    requires w in run[k].waiters && w in run[k].interest && run[k].waiters[w].Parked?
    requires run[k].interest[w] * run[k].facts != {}
    ensures Enabled(run[k], Wake(w)) || run[k].unannounced > 0
  {
    RunKeepsInv(run, k);
    var fact := Pick(run[k].interest[w] * run[k].facts);
    assert Excused(run[k], run[k].waiters[w].signal, fact);
  }

  /** Hence once every writer has notified, a waiter stays parked only while its condition is false. */
  lemma {:induction false} ParkedAtRestMeansFalse(run: seq<State>, k: nat, w: nat)
    requires IsRun(run) && k < |run| && run[k].unannounced == 0
    requires w in run[k].waiters && w in run[k].interest && run[k].waiters[w].Parked?
    requires run[k].waiters[w].signal == run[k].current
    ensures run[k].interest[w] * run[k].facts == {}
  {
    if run[k].interest[w] * run[k].facts != {} {
      NoLostWakeup(run, k, w);
    }
  }

  /** A condition that holds from one moment to another is seen by every check made in between. */
  lemma {:induction false} LastingFactAnswers(run: seq<State>, i: nat, j: nat, w: nat, fact: nat)
    requires IsRun(run) && i <= j < |run|
    requires forall k :: i <= k <= j ==> fact in run[k].facts
    requires w in run[i].waiters && run[i].waiters[w] == Idle
    requires forall k :: i <= k <= j ==> w in run[k].waiters && w in run[k].interest && fact in run[k].interest[w]
    ensures !run[j].waiters[w].Parked?
    ensures run[j].waiters[w].Checking? && fact in run[j].waiters[w].seen ==> run[j].waiters[w].hit
    decreases j
  {
    if i < j {
      LastingFactAnswers(run, i, j - 1, w, fact);
      assert Moves(run[j - 1], run[(j - 1) + 1]);
    }
  }

  // ---------------------------------------------------------------- what a waiter is answered

  /** A run that takes these steps. */
  ghost predicate Takes(run: seq<State>, steps: seq<Step>) {
    && IsRun(run) && |run| == |steps| + 1
    && forall k :: 0 <= k < |steps| ==> Enabled(run[k], steps[k]) && run[k + 1] == Apply(run[k], steps[k])
  }

  /** Only the deadline, a cancelled request or the shutdown answers "not ready". */
  lemma {:induction false} OnlyGivingUpSaysNo(run: seq<State>, steps: seq<Step>, k: nat, w: nat)
    requires Takes(run, steps) && k < |run| && GiveUp(w) !in steps[..k]
    ensures w in run[k].waiters ==> run[k].waiters[w] != Answered(false)
  {
    if k > 0 {
      assert steps[..k - 1] == steps[..k][..k - 1] && steps[k - 1] == steps[..k][k - 1];
      OnlyGivingUpSaysNo(run, steps, k - 1, w);
      assert run[(k - 1) + 1] == Apply(run[k - 1], steps[k - 1]);
    }
  }

  /** Some fact of the waiter's interest held at some moment up to k. */
  ghost predicate HasHeld(run: seq<State>, k: nat, w: nat) {
    exists i: nat, fact :: HeldAt(run, i, w, fact) && i <= k
  }

  ghost predicate HeldAt(run: seq<State>, i: nat, w: nat, fact: nat) {
    i < |run| && w in run[i].interest && fact in run[i].interest[w] && fact in run[i].facts
  }

  /** "Ready" is only answered, and "hit" only noted, when some fact of interest held. */
  lemma {:induction false} ReadyMeansItHeld(run: seq<State>, steps: seq<Step>, k: nat, w: nat)
    requires Takes(run, steps) && k < |run| && w in run[k].waiters
    requires run[k].waiters[w] == Answered(true) || (run[k].waiters[w].Checking? && run[k].waiters[w].hit)
    ensures HasHeld(run, k, w)
  {
    if k > 0 {
      var s, a := run[k - 1], steps[k - 1];
      assert run[(k - 1) + 1] == Apply(s, a);
      if s.waiters[w] == Answered(true) || (s.waiters[w].Checking? && s.waiters[w].hit) {
        ReadyMeansItHeld(run, steps, k - 1, w);
        var i: nat, fact :| HeldAt(run, i, w, fact) && i <= k - 1;
        assert HeldAt(run, i, w, fact) && i <= k;
      } else {
        assert HeldAt(run, k - 1, w, a.fact);
      }
    }
  }

  /** A check that began after a lasting fact became true, and ends while it holds, answers "ready". */
  lemma {:induction false} CheckSeesLastingFact(run: seq<State>, steps: seq<Step>, i: nat, j: nat, w: nat, fact: nat)
    requires Takes(run, steps) && i <= j < |steps| && steps[j] == EndCheck(w)
    requires forall k :: i <= k <= j ==> fact in run[k].facts
    requires w in run[i].waiters && run[i].waiters[w] == Idle
    requires forall k :: i <= k <= j ==> w in run[k].waiters && w in run[k].interest && fact in run[k].interest[w]
    ensures w in run[j + 1].waiters && run[j + 1].waiters[w] == Answered(true)
  {
    LastingFactAnswers(run, i, j, w, fact);
    assert Enabled(run[j], steps[j]) && run[j + 1] == Apply(run[j], steps[j]);
  }

  /** With no notification since its subscription, a waiter is not woken. */
  lemma {:induction false} NotWokenByNothing(run: seq<State>, i: nat, j: nat, w: nat)
    requires IsRun(run) && i <= j < |run| && run[i].current == run[j].current
    requires w in run[i].waiters && run[i].waiters[w] == Idle
    ensures w in run[j].waiters && !Enabled(run[j], Wake(w))
  {
    HoldsCurrent(run, i, j, w);
  }

  lemma {:induction false} HoldsCurrent(run: seq<State>, i: nat, j: nat, w: nat)
    requires IsRun(run) && i <= j < |run|
    requires w in run[i].waiters && run[i].waiters[w] == Idle
    ensures w in run[j].waiters && run[i].current <= run[j].current
    ensures run[j].waiters[w].Checking? ==> run[j].waiters[w].signal >= run[i].current
    ensures run[j].waiters[w].Parked? ==> run[j].waiters[w].signal >= run[i].current
    decreases j
  {
    if i < j {
      HoldsCurrent(run, i, j - 1, w);
      assert Moves(run[j - 1], run[(j - 1) + 1]);
    }
  }

  // ---------------------------------------------------------------- a woken waiter is answered

  datatype Trace = Trace(run: seq<State>, steps: seq<Step>)

  ghost predicate Linked(t: Trace) {
    && |t.run| == |t.steps| + 1
    && forall k :: 0 <= k < |t.steps| ==> Enabled(t.run[k], t.steps[k]) && t.run[k + 1] == Apply(t.run[k], t.steps[k])
  }

  ghost predicate Continues(t: Trace, s: State) {
    Linked(t) && t.run[0] == s
  }

  ghost function Last(t: Trace): State
    requires Linked(t)
  {
    t.run[|t.run| - 1]
  }

  /** The moves of one waiter. */
  predicate IsOwn(a: Step, w: nat) {
    a == Wake(w) || a == Subscribe(w) || a == EndCheck(w) || (a.Read? && a.w == w)
  }

  ghost predicate Own(t: Trace, w: nat) {
    forall k :: 0 <= k < |t.steps| ==> IsOwn(t.steps[k], w)
  }

  ghost function Then(t: Trace, a: Step, w: nat): (longer: Trace)
    requires Linked(t) && Own(t, w) && Enabled(Last(t), a) && IsOwn(a, w)
    ensures Continues(longer, t.run[0]) && Own(longer, w) && Last(longer) == Apply(Last(t), a)
  {
    Trace(t.run + [Apply(Last(t), a)], t.steps + [a])
  }

  /** The state after the waiter has read the facts of `rest` besides those it had seen. */
  ghost function AfterReading(s: State, w: nat, rest: set<nat>): State
    requires w in s.waiters && s.waiters[w].Checking?
  {
    var c := s.waiters[w];
    s.(waiters := s.waiters[w := Checking(c.signal, c.seen + rest, c.hit || rest * s.facts != {})])
  }

  lemma {:induction false} ReadsOneMore(s: State, w: nat, rest: set<nat>, fact: nat)
    requires w in s.waiters && s.waiters[w].Checking? && w in s.interest && fact in rest && fact in s.interest[w]
    ensures Apply(AfterReading(s, w, rest - {fact}), Read(w, fact)) == AfterReading(s, w, rest)
  {
    var c := s.waiters[w];
    assert c.seen + (rest - {fact}) + {fact} == c.seen + rest;
    assert rest * s.facts == (rest - {fact}) * s.facts + {fact} * s.facts;
    if fact in s.facts {
      assert fact in rest * s.facts;
    } else {
      assert {fact} * s.facts == {};
    }
  }

  lemma {:induction false} ReadsAll(t: Trace, w: nat, rest: set<nat>) returns (longer: Trace)
    requires Linked(t) && Own(t, w) && w in Last(t).waiters && w in Last(t).interest && Last(t).waiters[w].Checking?
    requires rest <= Last(t).interest[w]
    ensures Continues(longer, t.run[0]) && Own(longer, w) && Last(longer) == AfterReading(Last(t), w, rest)
  {
    var s := Last(t);
    if rest == {} {
      longer := t;
      ReadsNothing(s, w);
    } else {
      var fact := Pick(rest);
      longer := ReadsAll(t, w, rest - {fact});
      ReadsOneMore(s, w, rest, fact);
      longer := Then(longer, Read(w, fact), w);
    }
  }

  lemma {:induction false} ReadsNothing(s: State, w: nat)
    requires w in s.waiters && s.waiters[w].Checking?
    ensures AfterReading(s, w, {}) == s
  {
    var c := s.waiters[w];
    assert c.seen + {} == c.seen && {} * s.facts == {};
    assert s.waiters[w := c] == s.waiters;
  }

  /** From every state: a parked waiter whose signal is closed wakes and checks again by its own moves,
      and is then answered "ready", or parked again on the current signal, as its condition is. */
  lemma {:induction false} WokenChecksAgain(s: State, w: nat) returns (t: Trace)
    requires w in s.waiters && w in s.interest && s.waiters[w].Parked? && s.waiters[w].signal < s.current
    ensures Continues(t, s) && Own(t, w)
    ensures Last(t).facts == s.facts && w in Last(t).waiters
    ensures Last(t).waiters[w] ==
              if exists fact :: fact in s.interest[w] && fact in s.facts then Answered(true) else Parked(s.current)
  {
    t := Trace([s], []);
    t := Then(t, Wake(w), w);
    t := Then(t, Subscribe(w), w);
    t := ReadsAll(t, w, s.interest[w]);
    assert {} + s.interest[w] == s.interest[w];
    if s.interest[w] * s.facts != {} {
      var fact := Pick(s.interest[w] * s.facts);
      assert fact in s.interest[w] && fact in s.facts;
    } else {
      assert forall fact :: fact in s.interest[w] ==> fact !in s.interest[w] * s.facts;
    }
    t := Then(t, EndCheck(w), w);
  }

  // ---------------------------------------------------------------- what a writer does for a waiter

  /** Row, then counter, then one notification, as queueing a URL does it. */
  ghost function Announced(s: State, row: set<nat>, counter: set<nat>): (t: Trace)
    ensures Continues(t, s)
    ensures Last(t).facts == s.facts + row + counter && Last(t).waiters == s.waiters
    ensures Last(t).current == s.current + 1 && Last(t).interest == s.interest
    ensures Last(t).unannounced == s.unannounced
  {
    var a := Apply(s, Write(s.facts + row));
    var b := Apply(a, WriteMore(a.facts + counter));
    Trace([s, a, b, Apply(b, Notify)], [Write(s.facts + row), WriteMore(a.facts + counter), Notify])
  }

  /** From every state: a waiter parked on the current signal, or on an older one, that is interested in
      the row or in the counter is answered "ready" after the writer's call, by its own moves. */
  lemma {:induction false} AnnouncementIsAnswered(s: State, w: nat, row: set<nat>, counter: set<nat>)
    returns (u: State, t: Trace)
    requires w in s.waiters && w in s.interest && s.waiters[w].Parked? && s.waiters[w].signal <= s.current
    requires s.interest[w] * (row + counter) != {}
    ensures u == Last(Announced(s, row, counter)) && Continues(t, u) && Own(t, w)
    ensures w in Last(t).waiters && Last(t).waiters[w] == Answered(true)
  {
    u := Last(Announced(s, row, counter));
    var fact := Pick(s.interest[w] * (row + counter));
    assert fact in u.interest[w] && fact in u.facts;
    t := WokenChecksAgain(u, w);
  }

  /** A cleanup takes the facts it takes, and wakes nobody. */
  lemma {:induction false} CleanupIsQuiet(s: State, left: set<nat>, w: nat)
    requires Enabled(s, QuietWrite(left))
    ensures var t := Apply(s, QuietWrite(left));
            t.facts == left <= s.facts && t.waiters == s.waiters && (Enabled(t, Wake(w)) <==> Enabled(s, Wake(w)))
  {
  }

  /** Whoever gives up is answered "not ready", and nothing else changes. */
  lemma {:induction false} GivingUpSaysNo(s: State, w: nat)
    requires Enabled(s, GiveUp(w))
    ensures Apply(s, GiveUp(w)).waiters == s.waiters[w := Answered(false)]
    ensures Apply(s, GiveUp(w)).facts == s.facts && Apply(s, GiveUp(w)).current == s.current
  {
  }
}
