/**
 * internal/server/handlers_events.go: the worker's edge-triggered event cursor. First the channel
 * loop of collectWorkerEvents, then whole runs of a worker polling while URLs arrive.
 */
module WorkerEvents {
  import opened Prelude
  import opened IncomingQueue

  // ---------------------------------------------------------------- one collection

  datatype Flag = Incoming | Restart

  datatype Response = Response(cursor: int, events: map<string, seq<Flag>>)

  ghost function FlagsOf(q: Queue, restarts: map<string, int>, channel: string, since: int): seq<Flag> {
    (if Latest(q, channel) > since then [Incoming] else [])
    + (if channel in restarts && restarts[channel] > 0 then [Restart] else [])
  }

  /** The largest of the cursor and the newest stamps of the first n channels. */
  ghost predicate IsCursor(q: Queue, keys: seq<string>, n: nat, since: int, cursor: int)
    requires n <= |keys|
  {
    && cursor >= since
    && (forall i :: 0 <= i < n ==> Latest(q, keys[i]) <= cursor)
    && (cursor == since || exists i :: 0 <= i < n && Latest(q, keys[i]) == cursor)
  }

  /** The events are exactly the non-empty flag lists of the first n channels. */
  ghost predicate AreEvents(q: Queue, restarts: map<string, int>, keys: seq<string>, n: nat, since: int,
                            events: map<string, seq<Flag>>)
    requires n <= |keys|
  {
    && (forall i :: 0 <= i < n && FlagsOf(q, restarts, keys[i], since) != [] ==> keys[i] in events)
    && (forall key :: key in events ==>
          key in keys[..n] && events[key] == FlagsOf(q, restarts, key, since) != [])
  }

  ghost predicate Collected(q: Queue, restarts: map<string, int>, keys: seq<string>, since: int, resp: Response) {
    && IsCursor(q, keys, |keys|, since, resp.cursor)
    && AreEvents(q, restarts, keys, |keys|, since, resp.events)
  }

  /** The channel loop, on a database that nobody changes meanwhile; the `failsAt`-th channel's
      queries fail, if there is one. */
  method CollectWorkerEvents(q: Queue, restarts: map<string, int>, keys: seq<string>, since: int, failsAt: nat)
    returns (r: Result<Response, ()>)
    ensures r.Err? <==> failsAt < |keys|
    ensures r.Ok? ==> Collected(q, restarts, keys, since, r.value)
  {
    var cursor, events := since, map[];
    var i := 0;
    while i < |keys|
      invariant i <= |keys| && i <= failsAt
      invariant IsCursor(q, keys, i, since, cursor)
      invariant AreEvents(q, restarts, keys, i, since, events)
    {
      if i == failsAt { return Err(()); }
      var key := keys[i];
      NextCursor(q, keys, i, since, cursor);
      NextEvents(q, restarts, keys, i, since, events);
      var latest, flags := ReadChannel(q, restarts, key, since);
      if latest > cursor { cursor := latest; }
      if |flags| > 0 { events := events[key := flags]; }
      i := i + 1;
    }
    return Ok(Response(cursor, events));
  }

  /** One channel's two queries. */
  method ReadChannel(q: Queue, restarts: map<string, int>, key: string, since: int)
    returns (latest: int, flags: seq<Flag>)
    ensures latest == Latest(q, key) && flags == FlagsOf(q, restarts, key, since)
  {
    flags := [];
    latest := QueryLatest(q, key);
    if latest > since { flags := flags + [Incoming]; }
    if key in restarts && restarts[key] > 0 { flags := flags + [Restart]; }
  }

  lemma {:induction false} NextCursor(q: Queue, keys: seq<string>, i: nat, since: int, cursor: int)
    requires i < |keys| && IsCursor(q, keys, i, since, cursor)
    ensures IsCursor(q, keys, i + 1, since, if Latest(q, keys[i]) > cursor then Latest(q, keys[i]) else cursor)
  {
    if cursor != since {
      var j :| 0 <= j < i && Latest(q, keys[j]) == cursor;
      assert j < i + 1;
    }
  }

  lemma {:induction false} NextEvents(q: Queue, restarts: map<string, int>, keys: seq<string>, i: nat, since: int,
                                      events: map<string, seq<Flag>>)
    requires i < |keys| && AreEvents(q, restarts, keys, i, since, events)
    ensures var flags := FlagsOf(q, restarts, keys[i], since);
            AreEvents(q, restarts, keys, i + 1, since, if flags != [] then events[keys[i] := flags] else events)
  {
    assert keys[..i + 1] == keys[..i] + [keys[i]];
  }

  method QueryLatest(q: Queue, channel: string) returns (latest: int)
    ensures latest == Latest(q, channel)
  {
    var stamps := set e | e in q && e.channel == channel :: q[e];
    assert stamps == Stamps(q, channel);
    assert IsLatest(q, channel, Latest(q, channel));
    if stamps == {} { return 0; }
    MaximumExists(stamps);
    latest :| latest in stamps && IsMaximum(stamps, latest);
  }

  /** The poll advances the cursor exactly when it flags some channel incoming, and then past every
      flagged channel's newest stamp. */
  lemma {:induction false} CursorAdvancesIffIncoming(q: Queue, restarts: map<string, int>, keys: seq<string>,
                                                     since: int, resp: Response)
    requires Collected(q, restarts, keys, since, resp)
    ensures resp.cursor > since <==> exists key :: key in resp.events && Incoming in resp.events[key]
    ensures forall key :: key in resp.events && Incoming in resp.events[key] ==> Latest(q, key) <= resp.cursor
  {
    if resp.cursor > since {
      var i :| 0 <= i < |keys| && Latest(q, keys[i]) == resp.cursor;
      assert FlagsOf(q, restarts, keys[i], since)[0] == Incoming;
    }
    forall key | key in resp.events && Incoming in resp.events[key]
      ensures since < Latest(q, key) <= resp.cursor
    {
      var i :| 0 <= i < |keys| && keys[..|keys|][i] == key;
      assert keys[i] == key;
    }
  }

  /** What a listed channel is flagged with: "incoming" exactly for a stamp past the cursor, "restart"
      exactly for a pending request, in this order; and nothing else is in the answer. */
  lemma {:induction false} EventsMeaning(q: Queue, restarts: map<string, int>, keys: seq<string>, since: int,
                                         resp: Response, key: string)
    requires Collected(q, restarts, keys, since, resp)
    ensures key in resp.events ==> key in keys && resp.events[key] in [[Incoming], [Restart], [Incoming, Restart]]
    ensures key in resp.events && Incoming in resp.events[key] <==> key in keys && Latest(q, key) > since
    ensures key in resp.events && Restart in resp.events[key] <==>
              key in keys && key in restarts && restarts[key] > 0
  {
    assert keys[..|keys|] == keys;
    assert [Incoming] + [] == [Incoming] && [] + [Restart] == [Restart];
    assert [Incoming] + [Restart] == [Incoming, Restart];
    if key in keys {
      var i :| 0 <= i < |keys| && keys[i] == key;
      assert FlagsOf(q, restarts, keys[i], since) != [] ==> keys[i] in resp.events;
    }
  }

  // ---------------------------------------------------------------- runs of polls and announcements

  /** A poll between its first and last query: channels keys[..next] have been read. */
  datatype Poll = Poll(next: nat, cursor: int, flagged: set<string>)

  /** An announcement that has read the clock, and waits for its write. */
  datatype Stamped = Stamped(entry: Entry, at: int)

  datatype State = State(
    keys: seq<string>,
    clock: int,
    queue: Queue,
    writing: multiset<Stamped>,
    since: int,                 // the cursor the worker holds
    poll: Option<Poll>,
    open: set<Entry>,           // written, and not yet examined by a finished poll
    after: set<Entry>,          // of those, written in this poll after its channel's last read
    late: set<Entry>)           // written so while reads of other channels were still to come, or
                                // written when the second of its stamp was over

  datatype Step =
    | Tick(now: int)
    | Stamp(e: Entry)           // the announcement reads the clock, and then writes
    | Write(w: Stamped)
    | FailWrite(w: Stamped)
    | Drop(gone: set<Entry>)    // worker's delete, admin's clear, TTL cleanup
    | Begin
    | ReadNext
    | Finish                    // the worker gets the response and echoes its cursor
    | Abandon                   // the response is lost: the worker keeps its cursor

  ghost predicate Enabled(s: State, a: Step) {
    match a
    case Tick(now) => now >= s.clock
    case Stamp(e) => e.channel in s.keys
    case Write(w) => w in s.writing
    case FailWrite(w) => w in s.writing
    case Drop(_) => true
    case Begin => s.poll.None?
    case ReadNext => s.poll.Some? && s.poll.value.next < |s.keys|
    case Finish => s.poll.Some? && s.poll.value.next == |s.keys|
    case Abandon => s.poll.Some?
  }

  /** All reads of this channel in the running poll are over. */
  ghost predicate ReadOver(s: State, channel: string) {
    s.poll.Some? && s.poll.value.next <= |s.keys| && channel !in s.keys[s.poll.value.next..]
  }

  /** The row is written. */
  ghost function Queued(s: State, e: Entry, at: int): State {
    var over := ReadOver(s, e.channel);
    s.(queue := s.queue[e := at],
       open := s.open + {e},
       after := if over then s.after + {e} else s.after - {e},
       late := if at < s.clock || (over && s.poll.value.next < |s.keys|) then s.late + {e} else s.late - {e})
  }

  ghost function Apply(s: State, a: Step): State
    requires Enabled(s, a)
  {
    match a
    case Tick(now) => s.(clock := now)
    case Stamp(e) => s.(writing := s.writing + multiset{Stamped(e, s.clock)})
    case Write(w) => Queued(s, w.entry, w.at).(writing := s.writing - multiset{w})
    case FailWrite(w) => s.(writing := s.writing - multiset{w})
    case Drop(gone) =>
      s.(queue := s.queue - gone, open := s.open - gone, after := s.after - gone, late := s.late - gone)
    case Begin => s.(poll := Some(Poll(0, s.since, {})), after := {})
    case ReadNext =>
      var p, key := s.poll.value, s.keys[s.poll.value.next];
      var latest := Latest(s.queue, key);
      s.(poll := Some(Poll(p.next + 1, if latest > p.cursor then latest else p.cursor,
                           if latest > s.since then p.flagged + {key} else p.flagged)))
    case Finish => s.(since := s.poll.value.cursor, poll := None, open := s.after, after := {})
    case Abandon => s.(poll := None, after := {})
  }

  ghost predicate Clocked(s: State) {
    && 0 <= s.since <= s.clock
    && (forall e :: e in s.queue ==> s.queue[e] <= s.clock)
    && (forall w :: w in s.writing ==> w.at <= s.clock && w.entry.channel in s.keys)
    && (s.poll.Some? ==>
          && s.poll.value.next <= |s.keys|
          && s.since <= s.poll.value.cursor <= s.clock
          && (s.poll.value.cursor > s.since <==> s.poll.value.flagged != {}))
  }

  ghost predicate Tracked(s: State) {
    && s.after <= s.open && s.open <= s.queue.Keys
    && (forall e :: e in s.open ==> e.channel in s.keys)
    && (s.poll.None? ==> s.after == {})
    && (forall e :: e in s.after ==> ReadOver(s, e.channel))
    && (forall e :: e in s.open && e !in s.late ==> s.queue[e] >= s.since)
    && (s.poll.Some? ==>
          && (forall e :: e in s.after && e !in s.late ==>
                s.poll.value.next == |s.keys| && s.queue[e] >= s.poll.value.cursor)
          && (forall e :: e in s.open && e !in s.after && ReadOver(s, e.channel) ==>
                e.channel in s.poll.value.flagged || s.queue[e] <= s.since))
  }

  ghost predicate Inv(s: State) {
    Clocked(s) && Tracked(s)
  }

  lemma {:induction false} ReadStep(s: State)
    requires Inv(s) && Enabled(s, ReadNext)
    ensures Inv(Apply(s, ReadNext))
  {
    var t := Apply(s, ReadNext);
    var p, key := s.poll.value, s.keys[s.poll.value.next];
    LatestBelow(s.queue, key, s.clock);
    assert s.keys[p.next..] == [key] + s.keys[p.next + 1..];
    forall e | e in t.open && e !in t.after && ReadOver(t, e.channel)
      ensures e.channel in t.poll.value.flagged || t.queue[e] <= t.since
    {
      if e.channel == key {
        LatestBounds(s.queue, e);
      } else {
        assert ReadOver(s, e.channel);
      }
    }
  }

  lemma {:induction false} QueuedKeepsInv(s: State, e: Entry, at: int)
    requires Inv(s) && at <= s.clock && e.channel in s.keys
    ensures Inv(Queued(s, e, at))
  {
    var t := Queued(s, e, at);
    assert forall x :: x in t.open ==> x == e || x in s.open;
  }

  lemma {:induction false} StepKeepsInv(s: State, a: Step)
    requires Inv(s) && Enabled(s, a)
    ensures Inv(Apply(s, a))
  {
    match a
    case ReadNext => ReadStep(s);
    case Write(w) => QueuedKeepsInv(s, w.entry, w.at);
    case Begin => BeginStep(s);
    case Finish => FinishStep(s);
    case _ => OtherStep(s, a);
  }

  /** No read, and nothing newly written. */
  lemma {:induction false} OtherStep(s: State, a: Step)
    requires Inv(s) && Enabled(s, a)
    requires a.Tick? || a.Stamp? || a.FailWrite? || a.Drop? || a.Abandon?
    ensures Inv(Apply(s, a))
  {
    var t := Apply(s, a);
    assert forall e :: e in t.after ==> e in s.after && (ReadOver(s, e.channel) <==> ReadOver(t, e.channel));
  }

  lemma {:induction false} FinishStep(s: State)
    requires Inv(s) && Enabled(s, Finish)
    ensures Inv(Apply(s, Finish))
  {
    assert s.keys[|s.keys|..] == [];
  }

  lemma {:induction false} BeginStep(s: State)
    requires Inv(s) && Enabled(s, Begin)
    ensures Inv(Apply(s, Begin))
  {
    assert s.keys[0..] == s.keys;
    assert forall e :: e in s.open ==> e.channel in s.keys[0..];
  }

  ghost predicate Moves(s: State, t: State) {
    exists a :: Enabled(s, a) && t == Apply(s, a)
  }

  function Start(keys: seq<string>, clock: int): State {
    State(keys, clock, map[], multiset{}, 0, None, {}, {}, {})
  }

  ghost predicate IsRun(run: seq<State>) {
    && |run| > 0
    && run[0].clock >= 0 && run[0] == Start(run[0].keys, run[0].clock)
    && forall k :: 0 <= k < |run| - 1 ==> Moves(run[k], run[k + 1])
  }

  lemma {:induction false} RunKeepsInv(run: seq<State>, k: nat)
    requires IsRun(run) && k < |run|
    ensures Inv(run[k]) && run[k].keys == run[0].keys
  {
    if k > 0 {
      RunKeepsInv(run, k - 1);
      assert Moves(run[k - 1], run[(k - 1) + 1]);
      var a :| Enabled(run[k - 1], a) && run[k] == Apply(run[k - 1], a);
      StepKeepsInv(run[k - 1], a);
    }
  }

  /** The cursor never decreases, and a finished poll advances it exactly when it flagged something. */
  lemma {:induction false} CursorIsMonotone(run: seq<State>, i: nat, j: nat)
    requires IsRun(run) && i <= j < |run|
    ensures run[i].since <= run[j].since
    ensures run[i].poll.Some? ==> (run[i].poll.value.cursor > run[i].since <==> run[i].poll.value.flagged != {})
  {
    RunKeepsInv(run, i);
    assert Clocked(run[i]);
    CursorGrows(run, i, j);
  }

  lemma {:induction false} CursorGrows(run: seq<State>, i: nat, j: nat)
    requires IsRun(run) && i <= j < |run|
    ensures run[i].since <= run[j].since
    decreases j
  {
    if i < j {
      CursorGrows(run, i, j - 1);
      CursorMove(run, j);
    }
  }

  lemma {:induction false} CursorMove(run: seq<State>, k: nat)
    requires IsRun(run) && 0 < k < |run|
    ensures run[k - 1].since <= run[k].since
  {
    RunKeepsInv(run, k - 1);
    RunMoves(run, k);
    CursorStep(run[k - 1], run[k]);
  }

  lemma {:induction false} RunMoves(run: seq<State>, k: nat)
    requires IsRun(run) && 0 < k < |run|
    ensures Moves(run[k - 1], run[k])
  {
    assert Moves(run[k - 1], run[(k - 1) + 1]);
  }

  lemma {:induction false} CursorStep(s: State, t: State)
    requires Clocked(s) && Moves(s, t)
    ensures s.since <= t.since
  {
    var a :| Enabled(s, a) && t == Apply(s, a);
  }

  // ---------------------------------------------------------------- which URLs can be missed

  /** A poll has read every channel, and does not report a queued URL that was written since the
      previous poll's read of its channel. */
  ghost predicate Unreported(s: State, e: Entry) {
    && Enabled(s, Finish)
    && e in s.queue && e in s.open && e !in s.after
    && e.channel !in s.poll.value.flagged
  }

  /** A URL goes unreported only if its second is the cursor held or, late, if it was written past the
      second of its stamp, or while the previous poll had read its channel but not yet all others. */
  lemma {:induction false} MissedOnlyInTheSameSecond(run: seq<State>, k: nat, e: Entry)
    requires IsRun(run) && k < |run| && Unreported(run[k], e)
    ensures e.channel in run[0].keys
    ensures run[k].queue[e] <= run[k].since
    ensures e !in run[k].late ==> run[k].queue[e] == run[k].since
  {
    RunKeepsInv(run, k);
    assert run[k].keys[|run[k].keys|..] == [];
    assert ReadOver(run[k], e.channel);
  }

  ghost predicate InTime(s: State) {
    forall w :: w in s.writing ==> w.at == s.clock
  }

  /** Every write lands in the second of its stamp: none is waiting when that second is over. */
  ghost predicate Prompt(run: seq<State>) {
    forall k :: 0 <= k < |run| ==> InTime(run[k])
  }

  /** Then a worker that polls one channel never has late URLs, nor are those of its last one late. */
  lemma {:induction false} LastChannelIsNeverLate(run: seq<State>, k: nat, e: Entry)
    requires IsRun(run) && Prompt(run) && k < |run| && run[k].keys != []
    requires e.channel == run[k].keys[|run[k].keys| - 1]
    ensures e !in run[k].late
    decreases k
  {
    RunKeepsInv(run, k);
    if k > 0 {
      RunKeepsInv(run, k - 1);
      LastChannelIsNeverLate(run, k - 1, e);
      assert InTime(run[k - 1]) && Moves(run[k - 1], run[(k - 1) + 1]);
      var a :| Enabled(run[k - 1], a) && run[k] == Apply(run[k - 1], a);
      LastChannelStep(run[k - 1], a, e);
    }
  }

  lemma {:induction false} LastChannelStep(s: State, a: Step, e: Entry)
    requires InTime(s) && Enabled(s, a) && s.keys != [] && e.channel == s.keys[|s.keys| - 1] && e !in s.late
    ensures e !in Apply(s, a).late
  {
    if a.Write? && s.poll.Some? && s.poll.value.next < |s.keys| {
      assert s.keys[s.poll.value.next..][|s.keys| - 1 - s.poll.value.next] == e.channel;
    }
  }

  // ---------------------------------------------------------------- runs that miss one

  ghost function Last(run: seq<State>): State
    requires |run| > 0
  {
    run[|run| - 1]
  }

  ghost function Then(run: seq<State>, a: Step): (longer: seq<State>)
    requires |run| > 0 && IsRun(run) && Enabled(Last(run), a)
    ensures IsRun(longer) && longer[0] == run[0] && Last(longer) == Apply(Last(run), a)
    ensures Prompt(run) && InTime(Last(longer)) ==> Prompt(longer)
  {
    var longer := run + [Apply(Last(run), a)];
    assert Moves(Last(run), Apply(Last(run), a));
    forall k | 0 <= k < |longer| - 1 ensures Moves(longer[k], longer[k + 1]) {
      if k < |run| - 1 { assert Moves(run[k], run[k + 1]); }
    }
    longer
  }

  lemma {:induction false} LatestIs(q: Queue, e: Entry)
    requires e in q && forall x :: x in q ==> q[x] <= q[e]
    ensures Latest(q, e.channel) == q[e]
  {
    LatestBounds(q, e);
    var m := Latest(q, e.channel);
    assert m in Stamps(q, e.channel);
  }

  lemma {:induction false} Begun(keys: seq<string>) returns (run: seq<State>)
    ensures IsRun(run) && Prompt(run) && Last(run) == Start(keys, 1) && run[0] == Start(keys, 1)
  {
    run := [Start(keys, 1)];
  }

  /** A URL is announced, and written at once. */
  lemma {:induction false} Announced(run: seq<State>, e: Entry) returns (longer: seq<State>)
    requires IsRun(run) && e.channel in Last(run).keys
    ensures IsRun(longer) && longer[0] == run[0] && (Prompt(run) ==> Prompt(longer))
    ensures Last(longer) == Queued(Last(run), e, Last(run).clock)
  {
    var s := Last(run);
    var w := Stamped(e, s.clock);
    assert Prompt(run) ==> InTime(s);
    longer := Then(run, Stamp(e));
    longer := Then(longer, Write(w));
    assert s.writing + multiset{w} - multiset{w} == s.writing;
  }

  /** A poll that has flagged nothing reads n more channels while nothing newer is queued. */
  lemma {:induction false} ReadQuiet(run: seq<State>, m: nat, n: nat) returns (longer: seq<State>)
    requires IsRun(run) && Last(run).since >= 0 && m + n <= |Last(run).keys|
    requires Last(run).poll == Some(Poll(m, Last(run).since, {}))
    requires forall e :: e in Last(run).queue ==> Last(run).queue[e] <= Last(run).since
    ensures IsRun(longer) && longer[0] == run[0] && (Prompt(run) ==> Prompt(longer))
    ensures Last(longer) == Last(run).(poll := Some(Poll(m + n, Last(run).since, {})))
  {
    longer := run;
    if n > 0 {
      longer := ReadQuiet(run, m, n - 1);
      var s := Last(longer);
      assert Prompt(longer) ==> InTime(s);
      LatestBelow(s.queue, s.keys[m + n - 1], s.since);
      longer := Then(longer, ReadNext);
    }
  }

  /** The last channel's newest URL is found by a poll that has flagged nothing: the cursor moves to
      the clock. */
  lemma {:induction false} CatchesUp(run: seq<State>, f: Entry) returns (longer: seq<State>)
    requires IsRun(run) && var s := Last(run); s.keys != [] && f.channel == s.keys[|s.keys| - 1]
    requires var s := Last(run); s.poll == Some(Poll(|s.keys| - 1, s.since, {})) && 0 <= s.since < s.clock
    requires forall e :: e in Last(run).queue ==> Last(run).queue[e] <= Last(run).clock
    ensures IsRun(longer) && longer[0] == run[0] && (Prompt(run) ==> Prompt(longer))
    ensures var s := Last(run);
            Last(longer) == s.(queue := s.queue[f := s.clock], since := s.clock, poll := None,
                               open := s.after - {f}, after := {}, late := s.late - {f})
  {
    var s := Last(run);
    assert s.keys[|s.keys| - 1..] == [f.channel];
    longer := Announced(run, f);
    assert Prompt(longer) ==> InTime(Last(longer));
    LatestIs(Last(longer).queue, f);
    longer := Then(longer, ReadNext);
    longer := Then(longer, Finish);
  }

  /** The next poll after that reads everything and finds nothing newer. */
  lemma {:induction false} PollsInVain(run: seq<State>) returns (longer: seq<State>)
    requires IsRun(run) && Last(run).since >= 0 && Last(run).poll.None?
    requires forall e :: e in Last(run).queue ==> Last(run).queue[e] <= Last(run).since
    ensures IsRun(longer) && longer[0] == run[0] && (Prompt(run) ==> Prompt(longer))
    ensures var s := Last(run);
            Last(longer) == s.(poll := Some(Poll(|s.keys|, s.since, {})), after := {})
  {
    assert Prompt(run) ==> InTime(Last(run));
    longer := Then(run, Begin);
    longer := ReadQuiet(longer, 0, |Last(run).keys|);
  }

  /** A URL of any other channel than the last, announced after its channel's read, is overtaken by
      the last channel's stamp. */
  lemma {:induction false} LateUrlIsMissed(keys: seq<string>, c: string) returns (run: seq<State>, e: Entry)
    requires c in keys && c != keys[|keys| - 1]
    ensures IsRun(run) && Prompt(run) && run[0].keys == keys && e.channel == c
    ensures Unreported(Last(run), e) && Last(run).queue[e] < Last(run).since
  {
    var n, d := |keys|, keys[|keys| - 1];
    e := Entry(c, "u");
    run := Begun(keys);
    run := Then(run, Begin);
    run := ReadQuiet(run, 0, n - 1);
    assert keys[n - 1..] == [d];
    run := Announced(run, e);
    run := Then(run, Tick(2));
    assert Last(run) == State(keys, 2, map[e := 1], multiset{}, 0, Some(Poll(n - 1, 0, {})), {e}, {e}, {e});
    run := CatchesUp(run, Entry(d, "v"));
    run := PollsInVain(run);
  }

  /** A URL of any channel, written when the second of its stamp is over, is overtaken by one that was
      stamped later and written before it. */
  lemma {:induction false} SlowWriteIsMissed(keys: seq<string>, c: string) returns (run: seq<State>, e: Entry)
    requires c in keys
    ensures IsRun(run) && run[0].keys == keys && e.channel == c
    ensures Unreported(Last(run), e) && Last(run).queue[e] < Last(run).since
  {
    var n, d := |keys|, keys[|keys| - 1];
    e := Entry(c, "u");
    run := Begun(keys);
    run := Then(Then(Then(run, Stamp(e)), Tick(2)), Begin);
    run := ReadQuiet(run, 0, n - 1);
    run := CatchesUp(run, Entry(d, "v"));
    run := Then(run, Write(Stamped(e, 1)));
    run := PollsInVain(run);
  }

  /** Any URL can arrive in the second of the cursor, after the poll that found another one there. */
  lemma {:induction false} SameSecondIsMissed(keys: seq<string>, c: string) returns (run: seq<State>, e: Entry)
    requires c in keys
    ensures IsRun(run) && Prompt(run) && run[0].keys == keys && e.channel == c
    ensures Unreported(Last(run), e) && Last(run).queue[e] == Last(run).since
  {
    var n, d := |keys|, keys[|keys| - 1];
    e := Entry(c, "u");
    run := Begun(keys);
    run := Then(run, Begin);
    run := ReadQuiet(run, 0, n - 1);
    run := CatchesUp(run, Entry(d, "v"));
    run := Announced(run, e);
    run := PollsInVain(run);
  }

  /** Some run of a worker that polls these channels ends with this URL unreported. */
  ghost predicate Misses(run: seq<State>, keys: seq<string>, e: Entry) {
    IsRun(run) && run[0].keys == keys && Unreported(Last(run), e)
  }

  /** It does so although the URL's second is before the cursor held. */
  ghost predicate MissesEarlier(run: seq<State>, keys: seq<string>, e: Entry) {
    Misses(run, keys, e) && Last(run).queue[e] < Last(run).since
  }

  ghost predicate MissesInCursorSecond(run: seq<State>, keys: seq<string>, e: Entry) {
    Misses(run, keys, e) && Last(run).queue[e] == Last(run).since
  }

  lemma {:induction false} WhatAMissMeans(run: seq<State>, keys: seq<string>, e: Entry)
    requires Misses(run, keys, e)
    ensures e.channel in keys && Last(run).queue[e] <= Last(run).since
    ensures MissesEarlier(run, keys, e) ==> e in Last(run).late
    ensures MissesEarlier(run, keys, e) && Prompt(run) ==> e.channel != keys[|keys| - 1]
  {
    RunKeepsInv(run, |run| - 1);
    MissedOnlyInTheSameSecond(run, |run| - 1, e);
    if Prompt(run) && e.channel == keys[|keys| - 1] {
      LastChannelIsNeverLate(run, |run| - 1, e);
    }
  }

  /** Which URLs a worker can miss. One whose second is before the cursor held: of every channel it
      polls; if writes land in the second of their stamps, of every one but the last. One in the
      second of the cursor: of every channel it polls. One whose second is past the cursor: none. */
  lemma {:induction false} MissedExactlyIf(keys: seq<string>, c: string)
    ensures (exists run, e :: MissesEarlier(run, keys, e) && e.channel == c) <==> c in keys
    ensures (exists run, e :: MissesEarlier(run, keys, e) && e.channel == c && Prompt(run))
            <==> c in keys && c != keys[|keys| - 1]
    ensures (exists run, e :: MissesInCursorSecond(run, keys, e) && e.channel == c) <==> c in keys
    ensures forall run, e :: Misses(run, keys, e) ==> Last(run).queue[e] <= Last(run).since
  {
    forall run, e | Misses(run, keys, e)
      ensures e.channel in keys && Last(run).queue[e] <= Last(run).since
      ensures MissesEarlier(run, keys, e) && Prompt(run) ==> e.channel != keys[|keys| - 1]
    {
      WhatAMissMeans(run, keys, e);
    }
    if c in keys {
      var run, e := SameSecondIsMissed(keys, c);
      assert MissesInCursorSecond(run, keys, e);
      run, e := SlowWriteIsMissed(keys, c);
      assert MissesEarlier(run, keys, e);
      if c != keys[|keys| - 1] {
        run, e := LateUrlIsMissed(keys, c);
        assert MissesEarlier(run, keys, e);
      }
    }
  }

  // ---------------------------------------------------------------- an uninterrupted poll

  /** A poll that began in s has read its first n channels, and nothing else has moved. */
  ghost predicate HasRead(s: State, t: State, n: nat) {
    && n <= |s.keys|
    && t.poll.Some? && t == s.(poll := t.poll, after := {})
    && t.poll.value.next == n && IsCursor(s.queue, s.keys, n, s.since, t.poll.value.cursor)
    && forall key :: key in t.poll.value.flagged <==> key in s.keys[..n] && Latest(s.queue, key) > s.since
  }

  lemma {:induction false} ReadsOneMore(s: State, t: State)
    requires t.poll.Some? && t.poll.value.next < |s.keys| && HasRead(s, t, t.poll.value.next)
    ensures HasRead(s, Apply(t, ReadNext), t.poll.value.next + 1)
  {
    var n := t.poll.value.next;
    NextCursor(s.queue, s.keys, n, s.since, t.poll.value.cursor);
    assert s.keys[..n + 1] == s.keys[..n] + [s.keys[n]];
  }

  /** Reading the first n channels without interference comes to what collecting them gives. */
  lemma {:induction false} ReadsAll(run: seq<State>, n: nat) returns (longer: seq<State>)
    requires IsRun(run) && Last(run).poll.None? && n <= |Last(run).keys|
    ensures IsRun(longer) && longer[0] == run[0] && HasRead(Last(run), Last(longer), n)
  {
    if n == 0 {
      longer := Then(run, Begin);
    } else {
      var before := ReadsAll(run, n - 1);
      ReadsOneMore(Last(run), Last(before));
      longer := Then(before, ReadNext);
    }
  }

  /** A response that is lost is given again: the cursor has not moved, and the next poll flags every
      channel that is still past it. */
  lemma {:induction false} LostResponseIsRepeated(run: seq<State>) returns (longer: seq<State>)
    requires IsRun(run) && Enabled(Last(run), Finish)
    ensures IsRun(longer) && Enabled(Last(longer), Finish)
    ensures var s, t := Last(run), Last(longer);
            && t.since == s.since && t.queue == s.queue
            && forall key :: key in t.poll.value.flagged <==> key in s.keys && Latest(s.queue, key) > s.since
  {
    longer := Then(run, Abandon);
    var s := Last(run);
    longer := ReadsAll(longer, |s.keys|);
    assert s.keys[..|s.keys|] == s.keys;
  }

  /** A response that arrives moves the cursor to what was read. */
  lemma {:induction false} ResponseMovesCursor(run: seq<State>) returns (longer: seq<State>)
    requires IsRun(run) && Last(run).poll.None?
    ensures IsRun(longer)
    ensures var s, t := Last(run), Last(longer);
            && t.queue == s.queue && t.poll.None? && IsCursor(s.queue, s.keys, |s.keys|, s.since, t.since)
  {
    longer := ReadsAll(run, |Last(run).keys|);
    longer := Then(longer, Finish);
  }

  /** A dropped URL is no longer queued and so not missed; a write that failed does not come. */
  lemma {:induction false} DropsAndFailures(s: State, gone: set<Entry>, w: Stamped, e: Entry)
    ensures e in gone ==> !Unreported(Apply(s, Drop(gone)), e) && e !in Apply(s, Drop(gone)).queue
    ensures e !in gone && e in s.queue ==>
              e in Apply(s, Drop(gone)).queue && Apply(s, Drop(gone)).queue[e] == s.queue[e]
    ensures s.writing[w] == 1 ==> !Enabled(Apply(s, FailWrite(w)), Write(w)) && Apply(s, FailWrite(w)).queue == s.queue
  {
  }
}
