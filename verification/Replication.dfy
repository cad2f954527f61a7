/**
 * The worker/server transcript protocol for one stream: POST /line appends or answers 409, POST
 * /sync replaces. Messages may be lost, duplicated, delayed and reordered; the stream may be
 * deleted at any time. (internal/server/handlers_worker.go, internal/store/transcripts.go)
 */
module Replication {
  import opened Prelude
  import opened Transcripts

  datatype Message = LineMessage(line: Line) | SyncMessage(lines: seq<Line>)

  datatype State = State(
    worker: seq<Content>,     // the worker's transcript; it only grows
    network: set<Message>,    // everything in flight; delivering does not consume
    server: Transcript)

  datatype Step =
    | Speak(content: Content)
    | Send(message: Message)
    | Lose(message: Message)
    | DeliverLine(line: Line, last: int)
    | DeliverSync(lines: seq<Line>, files: map<int, string>)
    | Upload(id: int, fileID: string)
    | DeleteStream

  /** A line as the worker may send it: its ID is its position, its media fields are anything. */
  ghost predicate Genuine(worker: seq<Content>, line: Line) {
    0 <= line.id < |worker| && line.content == worker[line.id]
  }

  /** A full state of the worker, taken at some moment. */
  ghost predicate GenuineState(worker: seq<Content>, lines: seq<Line>) {
    && |lines| <= |worker|
    && forall i :: 0 <= i < |lines| ==> lines[i].id == i && lines[i].content == worker[i]
  }

  ghost predicate Enabled(s: State, a: Step) {
    match a
    case Speak(_) => true
    case Send(LineMessage(line)) => Genuine(s.worker, line)
    case Send(SyncMessage(lines)) => GenuineState(s.worker, lines) && |lines| == |s.worker|
    case Lose(_) => true
    case DeliverLine(line, last) => LineMessage(line) in s.network && IsLast(s.server, last)
    case DeliverSync(lines, _) => SyncMessage(lines) in s.network
    case Upload(_, _) => true
    case DeleteStream => true
  }

  ghost function Apply(s: State, a: Step): State
    requires Enabled(s, a)
  {
    match a
    case Speak(content) => s.(worker := s.worker + [content])
    case Send(message) => s.(network := s.network + {message})
    case Lose(message) => s.(network := s.network - {message})
    case DeliverLine(line, last) =>
      s.(server := match AcceptLine(s.server, last, line) case Ok(t) => t case Err(_) => s.server)
    case DeliverSync(lines, files) => s.(server := AcceptSync(s.server, files, lines))
    case Upload(id, fileID) =>
      s.(server := match SetAvailable(s.server, id, fileID, true) case Ok(t) => t case Err(_) => s.server)
    case DeleteStream => s.(server := map[])
  }

  // ---------------------------------------------------------------- the stored prefix

  /** The server holds exactly the worker's first m lines. */
  ghost predicate Mirrors(t: Transcript, worker: seq<Content>, m: nat) {
    && m <= |worker|
    && (forall k :: k in t <==> 0 <= k < m)
    && (forall k :: 0 <= k < m ==> t[k].content == worker[k])
  }

  ghost predicate Prefix(t: Transcript, worker: seq<Content>) {
    exists m: nat :: Mirrors(t, worker, m)
  }

  ghost predicate Honest(worker: seq<Content>, network: set<Message>) {
    forall message :: message in network ==>
      match message
      case LineMessage(line) => Genuine(worker, line)
      case SyncMessage(lines) => GenuineState(worker, lines)
  }

  ghost predicate Inv(s: State) {
    Prefix(s.server, s.worker) && Honest(s.worker, s.network)
  }

  lemma {:induction false} MirrorLast(t: Transcript, worker: seq<Content>, m: nat, last: int)
    requires Mirrors(t, worker, m) && IsLast(t, last)
    ensures last == m - 1
  {
    if m == 0 {
      if t.Keys != {} {
        var k := Pick(t.Keys);
        assert false;
      }
      assert t == map[];
    } else {
      assert m - 1 in t;
    }
  }

  /** The server takes a line exactly when it holds all lines before it and no others: a 409 means
      it is behind or already has the line. */
  lemma {:induction false} AcceptedExactlyInOrder(t: Transcript, worker: seq<Content>, m: nat, last: int, line: Line)
    requires Mirrors(t, worker, m) && IsLast(t, last) && Genuine(worker, line)
    ensures AcceptLine(t, last, line).Ok? <==> line.id == m
    ensures AcceptLine(t, last, line).Ok? ==> Mirrors(AcceptLine(t, last, line).value, worker, m + 1)
  {
    MirrorLast(t, worker, m, last);
  }

  /** A current state repairs any server, even one that does not hold a prefix. */
  lemma {:induction false} SyncInstalls(t: Transcript, files: map<int, string>, worker: seq<Content>, lines: seq<Line>)
    requires GenuineState(worker, lines)
    ensures Mirrors(AcceptSync(t, files, lines), worker, |lines|)
  {
    var carried := CarryOver(files, lines);
    InsertAllMeaning(carried);
    assert forall i :: 0 <= i < |carried| ==> carried[i].id == i && carried[i].content == worker[i];
    assert DistinctIDs(carried);
    var r := InsertAll(carried).value;
    forall k | 0 <= k < |lines| ensures k in r && r[k].content == worker[k] {
      assert carried[k].id == k;
    }
  }

  lemma {:induction false} MoreWorker(t: Transcript, worker: seq<Content>, content: Content)
    requires Prefix(t, worker)
    ensures Prefix(t, worker + [content])
  {
    var m: nat :| Mirrors(t, worker, m);
    assert Mirrors(t, worker + [content], m);
  }

  lemma {:induction false} UploadKeepsPrefix(t: Transcript, worker: seq<Content>, id: int, fileID: string)
    requires Prefix(t, worker) && id in t
    ensures Prefix(SetAvailable(t, id, fileID, true).value, worker)
  {
    var m: nat :| Mirrors(t, worker, m);
    assert Mirrors(SetAvailable(t, id, fileID, true).value, worker, m);
  }

  lemma {:induction false} StepKeepsInv(s: State, a: Step)
    requires Inv(s) && Enabled(s, a)
    ensures Inv(Apply(s, a))
  {
    match a
    case Speak(content) => MoreWorker(s.server, s.worker, content);
    case Send(message) =>
    case Lose(message) =>
    case DeliverLine(line, last) =>
      var m: nat :| Mirrors(s.server, s.worker, m);
      assert Honest(s.worker, s.network) && LineMessage(line) in s.network;
      AcceptedExactlyInOrder(s.server, s.worker, m, last, line);
    case DeliverSync(lines, files) =>
      assert Honest(s.worker, s.network) && SyncMessage(lines) in s.network;
      SyncInstalls(s.server, files, s.worker, lines);
    case Upload(id, fileID) =>
      if id in s.server { UploadKeepsPrefix(s.server, s.worker, id, fileID); }
    case DeleteStream => assert Mirrors(map[], s.worker, 0);
  }

  // ---------------------------------------------------------------- whole runs

  ghost predicate Moves(s: State, t: State) {
    exists a :: Enabled(s, a) && t == Apply(s, a)
  }

  ghost predicate IsRun(run: seq<State>) {
    && |run| > 0
    && run[0] == State([], {}, map[])
    && forall k :: 0 <= k < |run| - 1 ==> Moves(run[k], run[k + 1])
  }

  /** In every run, whatever the network does, the stored content is a prefix of the worker's. */
  lemma {:induction false} AlwaysAPrefix(run: seq<State>, k: nat)
    requires IsRun(run) && k < |run|
    ensures Inv(run[k])
    ensures Prefix(run[k].server, run[k].worker)
  {
    if k == 0 {
      assert Mirrors(map[], [], 0);
    } else {
      AlwaysAPrefix(run, k - 1);
      assert Moves(run[k - 1], run[(k - 1) + 1]);
      var a :| Enabled(run[k - 1], a) && run[k] == Apply(run[k - 1], a);
      StepKeepsInv(run[k - 1], a);
    }
  }

  /** A 409 answered with the worker's current state makes server and worker equal, and from then
      on every line delivered in order is accepted and keeps them equal. */
  lemma {:induction false} ResyncRestores(s: State, lines: seq<Line>, files: map<int, string>, next: Line, last: int)
    requires GenuineState(s.worker, lines) && |lines| == |s.worker|
    requires next.id == |s.worker| && IsLast(AcceptSync(s.server, files, lines), last)
    ensures var t := AcceptSync(s.server, files, lines);
            && Mirrors(t, s.worker, |s.worker|)
            && AcceptLine(t, last, next).Ok?
            && Mirrors(AcceptLine(t, last, next).value, s.worker + [next.content], |s.worker| + 1)
  {
    SyncInstalls(s.server, files, s.worker, lines);
    var t := AcceptSync(s.server, files, lines);
    assert Mirrors(t, s.worker + [next.content], |s.worker|);
    AcceptedExactlyInOrder(t, s.worker + [next.content], |s.worker|, last, next);
  }

  // ---------------------------------------------------------------- catching up

  ghost function Last(run: seq<State>): State
    requires |run| > 0
  {
    run[|run| - 1]
  }

  ghost function Then(run: seq<State>, a: Step): (longer: seq<State>)
    requires IsRun(run) && Enabled(Last(run), a)
    ensures IsRun(longer) && run <= longer && Last(longer) == Apply(Last(run), a)
  {
    var longer := run + [Apply(Last(run), a)];
    assert Moves(Last(run), Apply(Last(run), a));
    forall k | 0 <= k < |longer| - 1 ensures Moves(longer[k], longer[k + 1]) {
      if k < |run| - 1 { assert Moves(run[k], run[k + 1]); }
    }
    longer
  }

  /** The worker's whole state. */
  function StateOf(worker: seq<Content>): seq<Line> {
    seq(|worker|, i requires 0 <= i < |worker| => Line(i, "", worker[i], false))
  }

  /** From every reachable state, if the network delivers the worker's current state, the server holds
      all of its lines; and if it then delivers each new line, it keeps holding all. */
  lemma {:induction false} CatchesUp(run: seq<State>, news: seq<Content>) returns (longer: seq<State>)
    requires IsRun(run)
    ensures IsRun(longer) && run <= longer
    ensures Last(longer).worker == Last(run).worker + news
    ensures Mirrors(Last(longer).server, Last(longer).worker, |Last(longer).worker|)
  {
    if news == [] {
      var worker := Last(run).worker;
      longer := Then(run, Send(SyncMessage(StateOf(worker))));
      longer := Then(longer, DeliverSync(StateOf(worker), map[]));
      SyncInstalls(Last(run).server, map[], worker, StateOf(worker));
    } else {
      var n := |news| - 1;
      longer := CatchesUp(run, news[..n]);
      assert news == news[..n] + [news[n]];
      longer := OneMore(longer, news[n]);
    }
  }

  /** One line spoken, sent and delivered to a server that holds all the others. */
  lemma {:induction false} OneMore(run: seq<State>, content: Content) returns (longer: seq<State>)
    requires IsRun(run) && Mirrors(Last(run).server, Last(run).worker, |Last(run).worker|)
    ensures IsRun(longer) && run <= longer
    ensures Last(longer).worker == Last(run).worker + [content]
    ensures Mirrors(Last(longer).server, Last(longer).worker, |Last(longer).worker|)
  {
    var s := Last(run);
    var m := |s.worker|;
    var line := Line(m, "", content, false);
    longer := Then(run, Speak(content));
    assert Mirrors(s.server, s.worker + [content], m);
    longer := Then(longer, Send(LineMessage(line)));
    LastOfMirror(s.server, s.worker, m);
    AcceptedExactlyInOrder(s.server, s.worker + [content], m, m - 1, line);
    longer := Then(longer, DeliverLine(line, m - 1));
  }

  lemma {:induction false} LastOfMirror(t: Transcript, worker: seq<Content>, m: nat)
    requires Mirrors(t, worker, m)
    ensures IsLast(t, m - 1)
  {
    if m == 0 {
      SameMap(t, map[]);
    } else {
      assert m - 1 in t;
    }
  }

  /** What goes wrong on the way: a lost message is not delivered any more; a deleted stream begins with
      its first line again; an upload marks its line and changes no content. */
  lemma {:induction false} Disturbances(s: State, line: Line, last: int, lines: seq<Line>, files: map<int, string>,
                                        id: int, fileID: string)
    ensures !Enabled(Apply(s, Lose(LineMessage(line))), DeliverLine(line, last))
    ensures !Enabled(Apply(s, Lose(SyncMessage(lines))), DeliverSync(lines, files))
    ensures IsLast(Apply(s, DeleteStream).server, last) ==>
              (AcceptLine(Apply(s, DeleteStream).server, last, line).Ok? <==> line.id == 0)
    ensures var t := Apply(s, Upload(id, fileID)).server;
            && (forall k :: k in t <==> k in s.server)
            && (forall k :: k in t ==> t[k].content == s.server[k].content && (k != id ==> t[k] == s.server[k]))
            && (id in t ==> t[id].available && FileText(t[id]) == fileID)
  {
  }
}
