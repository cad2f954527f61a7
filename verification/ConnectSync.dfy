/**
 * internal/server/websocket.go: a client connecting while lines arrive. It is registered with the
 * hub before its snapshot is read, and lines are stored before they are broadcast.
 */
module ConnectSync {
  import opened Prelude
  import opened Transcripts
  import opened WsEvents
  import H = HubRuns
  import Hub

  // ---------------------------------------------------------------- concurrent connects and appends

  datatype LineRef = LineRef(streamID: string, index: nat)

  /** How far syncClient has come for one client. */
  datatype Conn =
    | Joined
    | KnowsStream(streamID: string)
    | Loaded(streamID: string, transcript: seq<Line>)
    | Synced(streamID: string, transcript: seq<Line>)

  datatype State = State(
    hub: H.State,
    stored: map<string, seq<Line>>,   // transcripts by stream
    announced: map<LineRef, nat>,     // stored lines whose broadcast has started, and which one it is
    conns: map<nat, Conn>)

  function Rows(s: State, streamID: string): seq<Line> {
    if streamID in s.stored then s.stored[streamID] else []
  }

  datatype Step =
    | HubMove(move: H.Step)                        // any other traffic of the hub
    | Connect(id: nat)
    | ReadStream(id: nat, streamID: string)        // GetRecentStream answers anything
    | ReadTranscript(id: nat)
    | PushSync(id: nat)
    | InsertLine(streamID: string, line: Line)
    | Announce(ref: LineRef)

  ghost predicate Enabled(s: State, a: Step) {
    match a
    case HubMove(move) => !move.Add? && !(move.Push? && move.msg.Sync?) && H.Enabled(s.hub, move)
    case Connect(id) => H.Enabled(s.hub, H.Add(id))
    case ReadStream(id, _) => id in s.conns && s.conns[id].Joined?
    case ReadTranscript(id) => id in s.conns && s.conns[id].KnowsStream?
    case PushSync(id) =>
      id in s.conns && s.conns[id].Loaded? && H.Enabled(s.hub, H.Push(id, SyncOf(s.conns[id])))
    case InsertLine(_, _) => true
    case Announce(ref) =>
      && ref !in s.announced && ref.index < |Rows(s, ref.streamID)|
      && H.Enabled(s.hub, H.StartFanOut(NewLineOf(Rows(s, ref.streamID)[ref.index])))
  }

  function SyncOf(c: Conn): Message
    requires c.Loaded? || c.Synced?
  {
    Sync(c.streamID, c.transcript)
  }

  ghost function Apply(s: State, a: Step): State
    requires Enabled(s, a)
  {
    match a
    case HubMove(move) => s.(hub := H.Apply(s.hub, move))
    case Connect(id) => s.(hub := H.Apply(s.hub, H.Add(id)), conns := s.conns[id := Joined])
    case ReadStream(id, streamID) => s.(conns := s.conns[id := KnowsStream(streamID)])
    case ReadTranscript(id) =>
      var streamID := s.conns[id].streamID;
      s.(conns := s.conns[id := Loaded(streamID, Rows(s, streamID))])
    case PushSync(id) =>
      var c := s.conns[id];
      s.(hub := H.Apply(s.hub, H.Push(id, SyncOf(c))),
         conns := s.conns[id := Synced(c.streamID, c.transcript)])
    case InsertLine(streamID, line) =>
      s.(stored := s.stored[streamID := Rows(s, streamID) + [line]])
    case Announce(ref) =>
      s.(hub := H.Apply(s.hub, H.StartFanOut(NewLineOf(Rows(s, ref.streamID)[ref.index]))),
         announced := s.announced[ref := |s.hub.log|])
  }

  /** The broadcast of an announced line is in the log. */
  ghost predicate Logged(s: State) {
    forall ref :: ref in s.announced ==>
      && ref.index < |Rows(s, ref.streamID)|
      && s.announced[ref] < |s.hub.log|
      && s.hub.log[s.announced[ref]] == NewLineOf(Rows(s, ref.streamID)[ref.index])
  }

  /** A client's snapshot is a prefix of the transcript, and what it lacks was not broadcast before
      the client was registered. */
  ghost predicate Covered(s: State, id: nat)
    requires id in s.conns
  {
    && id in s.hub.table
    && var c := s.conns[id];
       (c.Loaded? || c.Synced? ==>
          && c.transcript <= Rows(s, c.streamID)
          && (forall i: nat :: i >= |c.transcript| && LineRef(c.streamID, i) in s.announced ==>
                s.announced[LineRef(c.streamID, i)] >= s.hub.table[id].addedAt)
          && (c.Synced? ==> H.Direct(SyncOf(c)) in s.hub.table[id].pushes))
  }

  ghost predicate Inv(s: State) {
    && H.Inv(s.hub)
    && Logged(s)
    && forall id :: id in s.conns ==> Covered(s, id)
  }

  lemma {:induction false} PushesKept(a: seq<H.Item>, b: seq<H.Item>, x: H.Item)
    requires a <= b && x in a
    ensures x in b
  {
    var i :| 0 <= i < |a| && a[i] == x;
    assert b[i] == x;
  }

  lemma {:induction false} HubMoveKeeps(s: State, move: H.Step, t: State)
    requires Inv(s) && H.Enabled(s.hub, move)
    requires t.hub == H.Apply(s.hub, move) && t.stored == s.stored && t.announced == s.announced && t.conns == s.conns
    ensures Inv(t)
  {
    H.StepKeepsInv(s.hub, move);
    H.StepExtends(s.hub, move);
    forall id | id in t.conns ensures Covered(t, id) {
      assert Covered(s, id);
      var c := s.conns[id];
      if c.Synced? { PushesKept(s.hub.table[id].pushes, t.hub.table[id].pushes, H.Direct(SyncOf(c))); }
    }
    assert forall ref :: ref in t.announced ==> Rows(t, ref.streamID) == Rows(s, ref.streamID);
  }

  lemma {:induction false} AnnounceKeeps(s: State, ref: LineRef)
    requires Inv(s) && Enabled(s, Announce(ref))
    ensures Inv(Apply(s, Announce(ref)))
  {
    var move := H.StartFanOut(NewLineOf(Rows(s, ref.streamID)[ref.index]));
    var mid := s.(hub := H.Apply(s.hub, move));
    HubMoveKeeps(s, move, mid);
    var t := Apply(s, Announce(ref));
    forall id | id in t.conns ensures Covered(t, id) {
      assert Covered(s, id) && H.Ordered(s.hub, id);
      NewlyAnnounced(mid, ref, |s.hub.log|, id);
    }
    assert Logged(mid);
    assert forall r :: r in t.announced ==> r == ref || r in mid.announced;
  }

  /** A broadcast that starts now was not missed by anyone registered before. */
  lemma {:induction false} NewlyAnnounced(s: State, ref: LineRef, k: nat, id: nat)
    requires id in s.conns && Covered(s, id) && s.hub.table[id].addedAt <= k
    ensures Covered(s.(announced := s.announced[ref := k]), id)
  {
    var t := s.(announced := s.announced[ref := k]);
    assert forall streamID :: Rows(t, streamID) == Rows(s, streamID);
  }

  lemma {:induction false} InsertKeeps(s: State, streamID: string, line: Line)
    requires Inv(s)
    ensures Inv(Apply(s, InsertLine(streamID, line)))
  {
    var t := Apply(s, InsertLine(streamID, line));
    assert forall sid :: Rows(s, sid) <= Rows(t, sid);
    forall id | id in t.conns ensures Covered(t, id) {
      assert Covered(s, id);
    }
  }

  /** Only one client's progress changes. */
  lemma {:induction false} ConnChanges(s: State, id: nat, c: Conn)
    requires Inv(s) && Covered(s.(conns := s.conns[id := c]), id)
    ensures Inv(s.(conns := s.conns[id := c]))
  {
    var t := s.(conns := s.conns[id := c]);
    forall x | x in t.conns ensures Covered(t, x) {
      if x != id { assert Covered(s, x); }
    }
    assert forall ref :: ref in t.announced ==> Rows(t, ref.streamID) == Rows(s, ref.streamID);
  }

  lemma {:induction false} SnapshotKeeps(s: State, id: nat)
    requires Inv(s) && Enabled(s, ReadTranscript(id))
    ensures Inv(Apply(s, ReadTranscript(id)))
  {
    var streamID := s.conns[id].streamID;
    assert Covered(s, id);
    ConnChanges(s, id, Loaded(streamID, Rows(s, streamID)));
  }

  lemma {:induction false} ConnectKeeps(s: State, id: nat)
    requires Inv(s) && Enabled(s, Connect(id))
    ensures Inv(Apply(s, Connect(id)))
  {
    var mid := s.(hub := H.Apply(s.hub, H.Add(id)));
    HubMoveKeeps(s, H.Add(id), mid);
    ConnChanges(mid, id, Joined);
  }

  lemma {:induction false} SyncKeeps(s: State, id: nat)
    requires Inv(s) && Enabled(s, PushSync(id))
    ensures Inv(Apply(s, PushSync(id)))
  {
    var c := s.conns[id];
    var mid := s.(hub := H.Apply(s.hub, H.Push(id, SyncOf(c))));
    HubMoveKeeps(s, H.Push(id, SyncOf(c)), mid);
    assert Covered(mid, id);
    ConnChanges(mid, id, Synced(c.streamID, c.transcript));
  }

  lemma {:induction false} StepKeepsInv(s: State, a: Step)
    requires Inv(s) && Enabled(s, a)
    ensures Inv(Apply(s, a))
  {
    match a
    case HubMove(move) => HubMoveKeeps(s, move, Apply(s, a));
    case Connect(id) => ConnectKeeps(s, id);
    case ReadStream(id, streamID) =>
      assert Covered(s, id);
      ConnChanges(s, id, KnowsStream(streamID));
    case ReadTranscript(id) => SnapshotKeeps(s, id);
    case PushSync(id) => SyncKeeps(s, id);
    case InsertLine(streamID, line) => InsertKeeps(s, streamID, line);
    case Announce(ref) => AnnounceKeeps(s, ref);
  }

  ghost predicate Moves(s: State, t: State) {
    exists a :: Enabled(s, a) && t == Apply(s, a)
  }

  ghost predicate IsRun(run: seq<State>) {
    && |run| > 0
    && run[0].hub == H.Initial(run[0].hub.maxConn) && run[0].announced == map[] && run[0].conns == map[]
    && forall k :: 0 <= k < |run| - 1 ==> Moves(run[k], run[k + 1])
  }

  lemma {:induction false} RunKeepsInv(run: seq<State>, k: nat)
    requires IsRun(run) && k < |run|
    ensures Inv(run[k])
  {
    if k > 0 {
      RunKeepsInv(run, k - 1);
      assert Moves(run[k - 1], run[(k - 1) + 1]);
      var a :| Enabled(run[k - 1], a) && run[k] == Apply(run[k - 1], a);
      StepKeepsInv(run[k - 1], a);
    }
  }

  /** The request that stored the line has returned: its broadcast is over, removals included. */
  ghost predicate Completed(s: State, ref: LineRef) {
    && ref in s.announced
    && s.announced[ref] !in s.hub.removing
    && (s.hub.lock.Some? ==> s.hub.lock.value.index != s.announced[ref])
  }

  /** Snapshot plus subscription loses nothing: in any interleaving, while a synced client stays
      registered, every completed line of its stream is in the transcript it was sent, or its own
      newLine broadcast was queued to it (perhaps ahead of the sync). */
  lemma {:induction false} NothingLost(run: seq<State>, j: nat, id: nat, ref: LineRef)
    requires IsRun(run) && j < |run|
    requires id in run[j].conns && run[j].conns[id].Synced? && id in run[j].hub.clients
    requires ref.streamID == run[j].conns[id].streamID && Completed(run[j], ref)
    ensures var s, c := run[j], run[j].conns[id];
            && id in s.hub.table && ref.index < |Rows(s, ref.streamID)|
            && var line, pushes := Rows(s, ref.streamID)[ref.index], s.hub.table[id].pushes;
               || (exists sent: seq<Line> :: H.Direct(Sync(ref.streamID, sent)) in pushes
                     && ref.index < |sent| && sent[ref.index] == line)
               || (s.announced[ref] < |s.hub.log|
                     && s.hub.log[s.announced[ref]] == NewLine(line.id, line.content)
                     && H.Broadcast(s.announced[ref]) in pushes)
  {
    RunKeepsInv(run, j);
    var s, c := run[j], run[j].conns[id];
    assert Covered(s, id) && Logged(s);
    if ref.index >= |c.transcript| {
      var k := s.announced[ref];
      assert LineRef(c.streamID, ref.index) == ref;
      assert H.Complete(s.hub, id);
      assert (k as int) in H.Broadcasts(s.hub.table[id].pushes) || H.Owed(s.hub, id, k);
      H.BroadcastIsPushed(s.hub.table[id].pushes, k);
    }
  }

  // ---------------------------------------------------------------- both ways happen

  ghost function Last(run: seq<State>): State
    requires |run| > 0
  {
    run[|run| - 1]
  }

  ghost function Then(run: seq<State>, a: Step): (longer: seq<State>)
    requires IsRun(run) && Enabled(Last(run), a)
    ensures IsRun(longer) && Last(longer) == Apply(Last(run), a)
  {
    var longer := run + [Apply(Last(run), a)];
    assert Moves(Last(run), Apply(Last(run), a));
    forall k | 0 <= k < |longer| - 1 ensures Moves(longer[k], longer[k + 1]) {
      if k < |run| - 1 { assert Moves(run[k], run[k + 1]); }
    }
    longer
  }

  function Says(id: int, text: string): Line {
    Line(id, "", Content(id, text, false), false)
  }

  /** A line is stored and broadcast to nobody. */
  lemma {:induction false} FirstLine() returns (run: seq<State>)
    ensures IsRun(run)
    ensures Last(run) ==
              State(H.State(1, [], 0, 0, map[], [NewLine(0, Content(0, "a", false))], None, map[]),
                    map["s" := [Says(0, "a")]], map[LineRef("s", 0) := 0], map[])
  {
    run := [State(H.Initial(1), map[], map[], map[])];
    run := Then(run, InsertLine("s", Says(0, "a")));
    assert [] + [Says(0, "a")] == [Says(0, "a")];
    assert Last(run).stored == map["s" := [Says(0, "a")]];
    run := Then(run, Announce(LineRef("s", 0)));
    assert Last(run).hub.log == [NewLine(0, Content(0, "a", false))];
    run := Then(run, HubMove(H.EndFanOut));
    assert Last(run).hub.removing == map[0 := {}];
    run := Then(run, HubMove(H.EndBroadcast(0)));
    assert Last(run).hub.removing == map[] && Last(run).announced == map[LineRef("s", 0) := 0];
  }

  lemma {:induction false} ThenJoins() returns (run: seq<State>)
    ensures IsRun(run)
    ensures Last(run) ==
              State(H.State(1, [7], 1, 0, map[7 := H.ClientState(1, [], 0, false, 0)],
                            [NewLine(0, Content(0, "a", false))], None, map[]),
                    map["s" := [Says(0, "a")]], map[LineRef("s", 0) := 0], map[7 := Joined])
  {
    run := FirstLine();
    run := Then(run, HubMove(H.Reserve));
    run := Then(run, Connect(7));
    assert [] + [7] == [7];
  }

  /** Then a client connects and is sent it. */
  lemma {:induction false} ThenConnects() returns (run: seq<State>)
    ensures IsRun(run)
    ensures Last(run) ==
              State(H.State(1, [7], 1, 0,
                            map[7 := H.ClientState(1, [H.Direct(Sync("s", [Says(0, "a")]))], 0, false, 0)],
                            [NewLine(0, Content(0, "a", false))], None, map[]),
                    map["s" := [Says(0, "a")]], map[LineRef("s", 0) := 0], map[7 := Synced("s", [Says(0, "a")])])
  {
    run := ThenJoins();
    run := Then(run, ReadStream(7, "s"));
    run := Then(run, ReadTranscript(7));
    assert Last(run).conns == map[7 := Loaded("s", [Says(0, "a")])];
    run := Then(run, PushSync(7));
    assert [] + [H.Direct(Sync("s", [Says(0, "a")]))] == [H.Direct(Sync("s", [Says(0, "a")]))];
  }

  /** And the next line reaches it by its broadcast: what a client holds in the end is the transcript
      it was sent and, after it, the lines since. */
  lemma {:induction false} BothWaysHappen() returns (run: seq<State>)
    ensures IsRun(run)
    ensures var s := Last(run);
            && s.stored == map["s" := [Says(0, "a"), Says(1, "b")]]
            && Completed(s, LineRef("s", 0)) && Completed(s, LineRef("s", 1))
            && s.hub.clients == [7] && 7 in s.hub.table
            && s.hub.table[7].pushes == [H.Direct(Sync("s", [Says(0, "a")])), H.Broadcast(1)]
            && s.hub.log == [NewLine(0, Content(0, "a", false)), NewLine(1, Content(1, "b", false))]
  {
    run := ThenConnects();
    run := Then(run, InsertLine("s", Says(1, "b")));
    assert [Says(0, "a")] + [Says(1, "b")] == [Says(0, "a"), Says(1, "b")];
    assert Last(run).stored == map["s" := [Says(0, "a"), Says(1, "b")]];
    run := Then(run, Announce(LineRef("s", 1)));
    run := Then(run, HubMove(H.Offer));
    assert Last(run).hub.table[7].pushes == [H.Direct(Sync("s", [Says(0, "a")])), H.Broadcast(1)];
    run := Then(run, HubMove(H.EndFanOut));
    assert Last(run).hub.removing == map[1 := {}];
    run := Then(run, HubMove(H.EndBroadcast(1)));
  }

  // ---------------------------------------------------------------- one connection, start to end

  const PARTIAL_LINES: nat := 100

  /** What syncClient means to queue: nothing if the stream or transcript cannot be read. */
  function ScriptOf(recent: Result<Option<string>, ()>, transcript: Result<seq<Line>, ()>,
                    past: Result<seq<string>, ()>)
    : (script: seq<Message>)
    ensures |script| <= 3
  {
    if recent.Err? || transcript.Err? then []
    else
      var streamID := if recent.value.Some? then recent.value.value else "";
      var lines := transcript.value;
      (if |lines| > PARTIAL_LINES then [PartialSync(streamID, lines[|lines| - PARTIAL_LINES..])] else [])
      + [Sync(streamID, lines)]
      + (if past.Ok? && past.value != [] then [PastStreams(past.value)] else [])
  }

  /** With both reads answered: a transcript of more than 100 lines goes out with its last 100 ahead, a
      shorter one alone, and then the past streams, if there are any. With one failed: nothing. */
  lemma {:induction false} ScriptMeaning(id: string, early: seq<Line>, tail: seq<Line>, short: seq<Line>,
                                         past: seq<string>)
    requires |tail| == 100 && early != [] && |short| <= 100 && past != []
    ensures ScriptOf(Ok(Some(id)), Ok(early + tail), Ok(past)) ==
              [PartialSync(id, tail), Sync(id, early + tail), PastStreams(past)]
    ensures ScriptOf(Ok(Some(id)), Ok(early + tail), Err(())) == [PartialSync(id, tail), Sync(id, early + tail)]
    ensures ScriptOf(Ok(Some(id)), Ok(short), Ok(past)) == [Sync(id, short), PastStreams(past)]
    ensures ScriptOf(Ok(Some(id)), Ok(short), Ok([])) == [Sync(id, short)]
    ensures ScriptOf(Ok(None), Ok(short), Err(())) == [Sync("", short)]
    ensures ScriptOf(Err(()), Ok(short), Ok(past)) == ScriptOf(Ok(Some(id)), Err(()), Ok(past)) == []
  {
    var lines := early + tail;
    assert lines[|lines| - 100..] == tail;
  }

  /** One TrySend of syncClient: on failure the client is removed and the sync ends. */
  method SendOrRemove(hub: Hub.Hub<Message>, client: Hub.Client<Message>, msg: Message) returns (ok: bool)
    requires hub.Valid()
    modifies hub`clients, hub`connections, client
    ensures hub.Valid() && hub.Pending() == old(hub.Pending())
    ensures ok == Hub.Accepts(old(client.send), old(client.done))
    ensures client.send == if ok then old(client.send) + [msg] else old(client.send)
    ensures hub.clients == if ok then old(hub.clients) else Except(old(hub.clients), {client})
    ensures ok ==> client.done == old(client.done)
  {
    ok := client.TrySend(msg);
    if !ok {
      var _ := hub.Remove(client);
    }
  }

  /** The script was queued whole, or up to a full queue, and then the client was removed. */
  twostate predicate Ran(hub: Hub.Hub<Message>, client: Hub.Client<Message>, script: seq<Message>, n: nat)
    reads hub, client
  {
    && n <= |script|
    && client.send == old(client.send) + script[..n]
    && (if n == |script| then hub.clients == old(hub.clients) && client.done == old(client.done)
        else |client.send| >= Hub.SEND_BUFFER && hub.clients == Except(old(hub.clients), {client}))
  }

  lemma {:induction false} OneMore(before: seq<Message>, script: seq<Message>, n: nat)
    requires n < |script|
    ensures before + script[..n + 1] == before + script[..n] + [script[n]]
  {
  }

  /** A failed store read sends nothing; otherwise the script is queued, until it ends or the queue
      is full. */
  method SyncClient(hub: Hub.Hub<Message>, client: Hub.Client<Message>, recent: Result<Option<string>, ()>,
                    transcript: Result<seq<Line>, ()>, past: Result<seq<string>, ()>)
    returns (ghost queued: nat)
    requires hub.Valid() && !client.done
    modifies hub`clients, hub`connections, client
    ensures hub.Valid() && hub.Pending() == old(hub.Pending())
    ensures Ran(hub, client, ScriptOf(recent, transcript, past), queued)
  {
    queued := 0;
    ghost var script := ScriptOf(recent, transcript, past);
    if recent.Err? { return; }
    var streamID := if recent.value.Some? then recent.value.value else "";
    if transcript.Err? { return; }
    var lines := transcript.value;
    if |lines| > PARTIAL_LINES {
      assert script[0] == PartialSync(streamID, lines[|lines| - PARTIAL_LINES..]);
      var ok := SendOrRemove(hub, client, PartialSync(streamID, lines[|lines| - PARTIAL_LINES..]));
      if !ok { return; }
      queued := 1;
    }
    assert script[queued] == Sync(streamID, lines);
    assert client.send == old(client.send) + script[..queued];
    var ok := SendOrRemove(hub, client, Sync(streamID, lines));
    if !ok { return; }
    OneMore(old(client.send), script, queued);
    queued := queued + 1;
    if past.Ok? && |past.value| > 0 {
      assert script[queued] == PastStreams(past.value);
      ok := SendOrRemove(hub, client, PastStreams(past.value));
      if !ok { return; }
      OneMore(old(client.send), script, queued);
      queued := queued + 1;
    }
  }

  /** wsHandler from Add to its deferred Remove; the client leaves when its read loop ends. */
  method ServeClient(hub: Hub.Hub<Message>, recent: Result<Option<string>, ()>,
                     transcript: Result<seq<Line>, ()>, past: Result<seq<string>, ()>)
    returns (c: Hub.Client<Message>)
    requires hub.Valid() && hub.Pending() > 0
    modifies hub`clients, hub`connections
    ensures hub.Valid() && hub.Pending() == old(hub.Pending()) - 1 && hub.clients == old(hub.clients)
    ensures fresh(c) && c.done && c.send == ScriptOf(recent, transcript, past)
  {
    ghost var others := hub.clients;
    c := hub.Add();
    ghost var queued := SyncClient(hub, c, recent, transcript, past);
    AllQueued(c.send, ScriptOf(recent, transcript, past), queued);
    assert hub.clients == others + [c];
    RemoveLast(others, c);
    var _ := hub.Remove(c);
  }

  /** wsHandler: refused at the cap, the slot returned on a failed handshake, otherwise one client
      admitted, synced and removed; nothing of it stays behind. */
  method WsHandler(hub: Hub.Hub<Message>, upgraded: bool, recent: Result<Option<string>, ()>,
                   transcript: Result<seq<Line>, ()>, past: Result<seq<string>, ()>)
    returns (client: Option<Hub.Client<Message>>)
    requires hub.Valid()
    modifies hub`clients, hub`connections
    ensures hub.Valid() && hub.Pending() == old(hub.Pending()) && hub.clients == old(hub.clients)
    ensures client.Some? <==> old(hub.connections) < hub.maxConn && upgraded
    ensures client.Some? ==>
              fresh(client.value) && client.value.done && client.value.send == ScriptOf(recent, transcript, past)
  {
    var reserved := hub.Reserve();
    if !reserved { return None; }
    if !upgraded {
      hub.Unreserve();
      return None;
    }
    var c := ServeClient(hub, recent, transcript, past);
    return Some(c);
  }

  lemma {:induction false} AllQueued(send: seq<Message>, script: seq<Message>, n: nat)
    requires n <= |script| <= 3 && send == [] + script[..n]
    ensures |send| < Hub.SEND_BUFFER
    ensures n == |script| ==> send == script
  {
  }

  lemma {:induction false} RemoveLast(others: seq<Hub.Client<Message>>, c: Hub.Client<Message>)
    requires c !in others
    ensures Except(others + [c], {c}) == others
  {
    assert others + [c] + [] == others + [c] && others + [] == others;
    ExceptMiddle(others, c, []);
  }
}
