/**
 * The hub under concurrency (internal/ws/hub.go): the sections under its mutex, the queue
 * operations outside it and the removals after a broadcast, interleaved in any order.
 */
module HubRuns {
  import opened Prelude
  import Hub
  import opened WsEvents

  /** What a send queue took: the k-th broadcast of the hub, or a message sent to one client. */
  datatype Item = Broadcast(k: nat) | Direct(msg: Message)

  datatype ClientState = ClientState(
    addedAt: nat,             // how many broadcasts had started when it was registered
    pushes: seq<Item>,     // everything its queue ever accepted, in order
    sent: nat,                // how much of it the write pump has taken
    done: bool,
    releases: nat)            // how often its connection slot was given back

  /** A Broadcast inside its locked loop. */
  datatype FanOut = FanOut(index: nat, next: nat, stale: set<nat>)

  datatype State = State(
    maxConn: int,
    clients: seq<nat>,
    connections: int,
    pending: nat,                     // reservations neither added nor given back
    table: map<nat, ClientState>,  // every client ever added
    log: seq<Message>,                      // the broadcasts, in the order they took the lock
    lock: Option<FanOut>,
    removing: map<nat, set<nat>>)     // broadcasts past their loop, and the clients they still remove

  datatype Step =
    | Reserve | Unreserve | Add(id: nat)
    | Remove(id: nat) | Close(id: nat)
    | Push(id: nat, msg: Message) | Pump(id: nat)
    | StartFanOut(msg: Message) | Offer | EndFanOut
    | RemoveStale(k: nat, id: nat) | EndBroadcast(k: nat)

  /** A client's done may close between TrySend's two selects, and the second one may still queue. */
  predicate HasRoom(c: ClientState) {
    c.sent <= |c.pushes| && Hub.Accepts(c.pushes[c.sent..], false)
  }

  predicate Accepting(c: ClientState) {
    c.sent <= |c.pushes| && Hub.Accepts(c.pushes[c.sent..], c.done)
  }

  function Pushed(c: ClientState, item: Item): ClientState {
    c.(pushes := c.pushes + [item])
  }

  ghost predicate Enabled(s: State, a: Step) {
    match a
    case Reserve => s.lock.None? && s.connections < s.maxConn
    case Unreserve => s.lock.None? && s.pending > 0
    case Add(id) => s.lock.None? && s.pending > 0 && id !in s.table
    case Remove(id) => s.lock.None? && id in s.table
    case Close(id) => id in s.table && id !in s.clients
    case Push(id, _) => id in s.table && HasRoom(s.table[id])
    case Pump(id) => id in s.table && s.table[id].sent < |s.table[id].pushes|
    case StartFanOut(_) => s.lock.None?
    case Offer => s.lock.Some? && s.lock.value.next < |s.clients| && s.clients[s.lock.value.next] in s.table
    case EndFanOut => s.lock.Some? && s.lock.value.next == |s.clients|
    case RemoveStale(k, id) => s.lock.None? && k in s.removing && id in s.removing[k] && id in s.table
    case EndBroadcast(k) => k in s.removing && s.removing[k] == {}
  }

  /** The section of Remove under the lock: whoever finds the client gives its slot back. */
  ghost function Unregister(s: State, id: nat): State
    requires id in s.table
  {
    if id !in s.clients then s
    else
      s.(clients := Except(s.clients, {id}), connections := s.connections - 1,
         table := s.table[id := s.table[id].(releases := s.table[id].releases + 1)])
  }

  ghost function OfferNext(s: State): State
    requires Enabled(s, Offer)
  {
    var f := s.lock.value;
    var id := s.clients[f.next];
    if Accepting(s.table[id]) then
      s.(table := s.table[id := Pushed(s.table[id], Broadcast(f.index))],
         lock := Some(f.(next := f.next + 1)))
    else
      s.(lock := Some(f.(next := f.next + 1, stale := f.stale + {id})))
  }

  ghost function Apply(s: State, a: Step): State
    requires Enabled(s, a)
  {
    match a
    case Reserve => s.(connections := s.connections + 1, pending := s.pending + 1)
    case Unreserve => s.(connections := s.connections - 1, pending := s.pending - 1)
    case Add(id) =>
      s.(clients := s.clients + [id], pending := s.pending - 1,
         table := s.table[id := ClientState(|s.log|, [], 0, false, 0)])
    case Remove(id) => Unregister(s, id)
    case Close(id) => s.(table := s.table[id := s.table[id].(done := true)])
    case Push(id, msg) => s.(table := s.table[id := Pushed(s.table[id], Direct(msg))])
    case Pump(id) => s.(table := s.table[id := s.table[id].(sent := s.table[id].sent + 1)])
    case StartFanOut(msg) => s.(log := s.log + [msg], lock := Some(FanOut(|s.log|, 0, {})))
    case Offer => OfferNext(s)
    case EndFanOut =>
      s.(lock := None, removing := s.removing[s.lock.value.index := s.lock.value.stale])
    case RemoveStale(k, id) =>
      Unregister(s, id).(removing := s.removing[k := s.removing[k] - {id}])
    case EndBroadcast(k) => s.(removing := s.removing - {k})
  }

  // ---------------------------------------------------------------- what a client was broadcast

  ghost function Broadcasts(items: seq<Item>): seq<int> {
    if items == [] then []
    else
      var n := |items| - 1;
      Broadcasts(items[..n]) + (if items[n].Broadcast? then [items[n].k as int] else [])
  }

  lemma {:induction false} BroadcastsSnoc(items: seq<Item>, item: Item)
    ensures Broadcasts(items + [item]) == Broadcasts(items) + (if item.Broadcast? then [item.k as int] else [])
  {
    assert (items + [item])[..|items|] == items;
  }

  lemma {:induction false} BroadcastsPrefix(items: seq<Item>, n: nat)
    requires n <= |items|
    ensures Broadcasts(items[..n]) <= Broadcasts(items)
    decreases |items|
  {
    if n < |items| {
      BroadcastsPrefix(items[..|items| - 1], n);
      assert items[..|items| - 1][..n] == items[..n];
    } else {
      assert items[..n] == items;
    }
  }

  lemma {:induction false} BroadcastIsPushed(items: seq<Item>, k: nat)
    requires (k as int) in Broadcasts(items)
    ensures Broadcast(k) in items
  {
    var n := |items| - 1;
    if !(items[n].Broadcast? && items[n].k == k) {
      BroadcastIsPushed(items[..n], k);
      assert forall x :: x in items[..n] ==> x in items;
    }
  }

  // ---------------------------------------------------------------- the invariant

  /** Every connection slot belongs to a registered client or a pending reservation. */
  ghost predicate Slots(s: State) {
    && Distinct(s.clients)
    && s.connections == |s.clients| + s.pending
    && (s.connections <= s.maxConn || s.connections == 0)
    && (forall i :: 0 <= i < |s.clients| ==> s.clients[i] in s.table)
    && (forall id :: id in s.table ==> s.table[id].releases == if id in s.clients then 0 else 1)
    && (forall id :: id in s.table && s.table[id].done ==> id !in s.clients)
  }

  ghost predicate Locking(s: State) {
    && (forall k :: k in s.removing ==> k < |s.log|)
    && (s.lock.Some? ==>
          && s.lock.value.index + 1 == |s.log|
          && s.lock.value.index !in s.removing
          && s.lock.value.next <= |s.clients|)
  }

  /** The running fan-out has not come to this client yet. */
  ghost predicate Waiting(s: State, id: nat) {
    s.lock.Some? && s.lock.value.next <= |s.clients| && id !in s.clients[..s.lock.value.next]
  }

  /** The broadcasts a client accepted: since its Add, in hub order, the running one at most once. */
  ghost predicate Ordered(s: State, id: nat)
    requires id in s.table
  {
    var c := s.table[id];
    var heard := Broadcasts(c.pushes);
    && c.sent <= |c.pushes| <= c.sent + Hub.SEND_BUFFER
    && (if s.lock.Some? then c.addedAt < |s.log| else c.addedAt <= |s.log|)
    && Ascending(heard)
    && (forall i :: 0 <= i < |heard| ==>
          c.addedAt <= heard[i] < (if Waiting(s, id) then |s.log| - 1 else |s.log|))
  }

  /** Broadcast k is still going to reach the client or to remove it. */
  ghost predicate Owed(s: State, id: nat, k: nat) {
    || (k in s.removing && id in s.removing[k])
    || (s.lock.Some? && s.lock.value.index == k && (Waiting(s, id) || id in s.lock.value.stale))
  }

  ghost predicate Complete(s: State, id: nat)
    requires id in s.table
  {
    forall k: nat :: s.table[id].addedAt <= k < |s.log| ==>
      (k as int) in Broadcasts(s.table[id].pushes) || Owed(s, id, k)
  }

  /** Only clients once added are to be removed. */
  ghost predicate Known(s: State) {
    && (s.lock.Some? ==> forall id :: id in s.lock.value.stale ==> id in s.table)
    && (forall k, id :: k in s.removing && id in s.removing[k] ==> id in s.table)
  }

  ghost predicate Inv(s: State) {
    && Slots(s) && Locking(s) && Known(s)
    && (forall id :: id in s.table ==> Ordered(s, id))
    && (forall id :: id in s.table && id in s.clients ==> Complete(s, id))
  }

  ghost function Initial(maxConn: int): State {
    State(maxConn, [], 0, 0, map[], [], None, map[])
  }

  // ---------------------------------------------------------------- every step keeps it

  lemma {:induction false} UnregisterSlots(s: State, id: nat)
    requires Slots(s) && id in s.table
    ensures Slots(Unregister(s, id))
    ensures forall x :: x in Unregister(s, id).clients ==> x in s.clients && x != id
    ensures id !in Unregister(s, id).clients
  {
    if id in s.clients {
      ExceptMembers(s.clients, {id});
      ExceptDistinct(s.clients, {id});
      var i :| 0 <= i < |s.clients| && s.clients[i] == id;
      DeleteAt(s.clients, i);
      var t := Unregister(s, id);
      assert forall j :: 0 <= j < |t.clients| ==> t.clients[j] in t.clients;
    }
  }

  lemma {:induction false} SlotsStep(s: State, a: Step)
    requires Slots(s) && Enabled(s, a)
    ensures Slots(Apply(s, a))
  {
    match a
    case Add(id) => assert id !in s.clients;
    case Remove(id) => UnregisterSlots(s, id);
    case RemoveStale(k, id) => UnregisterSlots(s, id);
    case Offer => assert s.clients[s.lock.value.next] in s.clients;
    case _ =>
  }

  lemma {:induction false} LockingStep(s: State, a: Step)
    requires Slots(s) && Locking(s) && Enabled(s, a)
    ensures Locking(Apply(s, a))
  {
  }

  lemma {:induction false} KnownStep(s: State, a: Step)
    requires Slots(s) && Known(s) && Enabled(s, a)
    ensures Known(Apply(s, a))
  {
  }

  lemma {:induction false} UnregisterTable(s: State, id: nat, x: nat)
    requires id in s.table && x in s.table
    ensures x in Unregister(s, id).table
    ensures var c, d := s.table[x], Unregister(s, id).table[x];
            d.pushes == c.pushes && d.sent == c.sent && d.addedAt == c.addedAt
  {
  }

  lemma {:induction false} OrderedOffer(s: State, x: nat)
    requires Slots(s) && Locking(s) && Enabled(s, Offer) && x in s.table && Ordered(s, x)
    ensures Ordered(OfferNext(s), x)
  {
    var f := s.lock.value;
    var id := s.clients[f.next];
    assert s.clients[..f.next + 1] == s.clients[..f.next] + [id];
    assert id !in s.clients[..f.next];
    BroadcastsSnoc(s.table[x].pushes, Broadcast(f.index));
  }

  lemma {:induction false} OrderedPush(s: State, id: nat, msg: Message, x: nat)
    requires Enabled(s, Push(id, msg)) && x in s.table && Ordered(s, x)
    ensures Ordered(Apply(s, Push(id, msg)), x)
  {
    BroadcastsSnoc(s.table[id].pushes, Direct(msg));
  }

  lemma {:induction false} OrderedStep(s: State, a: Step, x: nat)
    requires Slots(s) && Locking(s) && Enabled(s, a) && x in Apply(s, a).table
    requires x in s.table ==> Ordered(s, x)
    ensures Ordered(Apply(s, a), x)
  {
    match a
    case Remove(id) => UnregisterTable(s, id, x);
    case RemoveStale(k, id) => UnregisterTable(s, id, x);
    case Push(id, msg) => OrderedPush(s, id, msg, x);
    case Offer => OrderedOffer(s, x);
    case _ =>
  }

  lemma {:induction false} CompleteOffer(s: State, x: nat)
    requires Slots(s) && Locking(s) && Enabled(s, Offer) && x in s.clients && x in s.table && Complete(s, x)
    ensures Complete(OfferNext(s), x)
  {
    var f := s.lock.value;
    var id := s.clients[f.next];
    var t := OfferNext(s);
    assert s.clients[..f.next + 1] == s.clients[..f.next] + [id];
    BroadcastsSnoc(s.table[x].pushes, Broadcast(f.index));
    forall k: nat | t.table[x].addedAt <= k < |t.log|
      ensures (k as int) in Broadcasts(t.table[x].pushes) || Owed(t, x, k)
    {
      assert (k as int) in Broadcasts(s.table[x].pushes) || Owed(s, x, k);
    }
  }

  lemma {:induction false} CompleteFrame(s: State, t: State, x: nat)
    requires x in s.table && x in t.table && Complete(s, x)
    requires t.table[x].pushes == s.table[x].pushes && t.table[x].addedAt == s.table[x].addedAt
    requires forall k: nat :: k < |t.log| ==> k < |s.log| || Owed(t, x, k)
    requires forall k: nat :: Owed(s, x, k) ==> Owed(t, x, k)
    ensures Complete(t, x)
  {
    forall k: nat | t.table[x].addedAt <= k < |t.log|
      ensures (k as int) in Broadcasts(t.table[x].pushes) || Owed(t, x, k)
    {
      if k < |s.log| { assert (k as int) in Broadcasts(s.table[x].pushes) || Owed(s, x, k); }
    }
  }

  lemma {:induction false} CompleteAdd(s: State, id: nat, x: nat)
    requires Slots(s) && Locking(s) && Enabled(s, Add(id)) && x in Apply(s, Add(id)).table
    requires x != id ==> Complete(s, x)
    ensures Complete(Apply(s, Add(id)), x)
  {
    if x != id {
      var t := Apply(s, Add(id));
      forall k: nat | Owed(s, x, k) ensures Owed(t, x, k) { }
      CompleteFrame(s, t, x);
    }
  }

  /** A registered client is still owed what it was owed when another one leaves. */
  lemma {:induction false} OwedUnregister(s: State, id: nat, x: nat, k: nat)
    requires Slots(s) && s.lock.None? && id in s.table && Owed(s, x, k)
    ensures Owed(Unregister(s, id), x, k)
  {
  }

  lemma {:induction false} CompleteRemove(s: State, id: nat, x: nat)
    requires Slots(s) && Enabled(s, Remove(id)) && x in s.table && Complete(s, x)
    ensures x in Unregister(s, id).table && Complete(Unregister(s, id), x)
  {
    UnregisterTable(s, id, x);
    forall k: nat | Owed(s, x, k) ensures Owed(Unregister(s, id), x, k) {
      OwedUnregister(s, id, x, k);
    }
    CompleteFrame(s, Unregister(s, id), x);
  }

  lemma {:induction false} CompleteRemoveStale(s: State, k: nat, id: nat, x: nat)
    requires Slots(s) && Enabled(s, RemoveStale(k, id)) && x in s.table && x != id && Complete(s, x)
    ensures x in Apply(s, RemoveStale(k, id)).table && Complete(Apply(s, RemoveStale(k, id)), x)
  {
    CompleteRemove(s, id, x);
    var mid, t := Unregister(s, id), Apply(s, RemoveStale(k, id));
    forall j: nat | Owed(mid, x, j) ensures Owed(t, x, j) {
      assert j in mid.removing && x in mid.removing[j];
    }
    CompleteFrame(mid, t, x);
  }

  lemma {:induction false} CompletePush(s: State, id: nat, msg: Message, x: nat)
    requires Enabled(s, Push(id, msg)) && x in s.table && Complete(s, x)
    ensures Complete(Apply(s, Push(id, msg)), x)
  {
    var t := Apply(s, Push(id, msg));
    BroadcastsSnoc(s.table[id].pushes, Direct(msg));
    forall k: nat | t.table[x].addedAt <= k < |t.log|
      ensures (k as int) in Broadcasts(t.table[x].pushes) || Owed(t, x, k)
    {
      assert (k as int) in Broadcasts(s.table[x].pushes) || Owed(s, x, k);
    }
  }

  lemma {:induction false} CompleteStart(s: State, msg: Message, x: nat)
    requires Locking(s) && Enabled(s, StartFanOut(msg)) && x in s.table && Complete(s, x)
    ensures Complete(Apply(s, StartFanOut(msg)), x)
  {
    var t := Apply(s, StartFanOut(msg));
    assert Owed(t, x, |s.log|);
    forall k: nat | Owed(s, x, k) ensures Owed(t, x, k) { }
    CompleteFrame(s, t, x);
  }

  lemma {:induction false} CompleteEnd(s: State, x: nat)
    requires Locking(s) && Enabled(s, EndFanOut) && x in s.table && x in s.clients && Complete(s, x)
    ensures Complete(Apply(s, EndFanOut), x)
  {
    var t := Apply(s, EndFanOut);
    assert s.clients[..|s.clients|] == s.clients;
    forall k: nat | Owed(s, x, k) ensures Owed(t, x, k) { }
    CompleteFrame(s, t, x);
  }

  lemma {:induction false} CompleteEndBroadcast(s: State, k: nat, x: nat)
    requires Enabled(s, EndBroadcast(k)) && x in s.table && Complete(s, x)
    ensures Complete(Apply(s, EndBroadcast(k)), x)
  {
    var t := Apply(s, EndBroadcast(k));
    forall j: nat | Owed(s, x, j) ensures Owed(t, x, j) { }
    CompleteFrame(s, t, x);
  }

  /** Slots, closing and the write pump have no part in it. */
  lemma {:induction false} CompleteElsewhere(s: State, a: Step, x: nat)
    requires Enabled(s, a) && (a.Reserve? || a.Unreserve? || a.Close? || a.Pump?)
    requires x in s.table && Complete(s, x)
    ensures Complete(Apply(s, a), x)
  {
    var t := Apply(s, a);
    forall k: nat | Owed(s, x, k) ensures Owed(t, x, k) { }
    CompleteFrame(s, t, x);
  }

  lemma {:induction false} CompleteStep(s: State, a: Step, x: nat)
    requires Slots(s) && Locking(s) && Enabled(s, a) && x in Apply(s, a).table && x in Apply(s, a).clients
    requires x in s.table && x in s.clients ==> Complete(s, x)
    ensures Complete(Apply(s, a), x)
  {
    match a
    case Offer => CompleteOffer(s, x);
    case Push(id, msg) => CompletePush(s, id, msg, x);
    case Add(id) => CompleteAdd(s, id, x);
    case Remove(id) => UnregisterSlots(s, id); CompleteRemove(s, id, x);
    case RemoveStale(k, id) => UnregisterSlots(s, id); CompleteRemoveStale(s, k, id, x);
    case StartFanOut(msg) => CompleteStart(s, msg, x);
    case EndFanOut => CompleteEnd(s, x);
    case EndBroadcast(k) => CompleteEndBroadcast(s, k, x);
    case _ => CompleteElsewhere(s, a, x);
  }

  lemma {:induction false} StepKeepsInv(s: State, a: Step)
    requires Inv(s) && Enabled(s, a)
    ensures Inv(Apply(s, a))
  {
    var t := Apply(s, a);
    SlotsStep(s, a);
    LockingStep(s, a);
    KnownStep(s, a);
    forall x | x in t.table ensures Ordered(t, x) {
      OrderedStep(s, a, x);
    }
    forall x | x in t.table && x in t.clients ensures Complete(t, x) {
      CompleteStep(s, a, x);
    }
  }

  /** History only grows: broadcasts are never taken back, nor clients forgotten, nor pushes undone. */
  lemma {:induction false} StepExtends(s: State, a: Step)
    requires Slots(s) && Enabled(s, a)
    ensures var t := Apply(s, a);
            && s.log <= t.log
            && forall id :: id in s.table ==>
                 id in t.table && t.table[id].addedAt == s.table[id].addedAt && s.table[id].pushes <= t.table[id].pushes
  {
  }

  // ---------------------------------------------------------------- whole runs

  ghost predicate Moves(s: State, t: State) {
    exists a :: Enabled(s, a) && t == Apply(s, a)
  }

  ghost predicate IsRun(run: seq<State>) {
    && |run| > 0
    && run[0] == Initial(run[0].maxConn)
    && forall k :: 0 <= k < |run| - 1 ==> Moves(run[k], run[k + 1])
  }

  lemma {:induction false} RunKeepsInv(run: seq<State>, k: nat)
    requires IsRun(run) && k < |run|
    ensures Inv(run[k])
  {
    if k > 0 {
      RunKeepsInv(run, k - 1);
      assert Moves(run[k - 1], run[(k - 1) + 1]);
      var a :| Enabled(run[k - 1], a) && run[k] == Apply(run[k - 1], a);
      StepKeepsInv(run[k - 1], a);
    }
  }

  /** Slot conservation: the connection count is the registered clients plus the pending
      reservations, never above the cap, and each client's slot is given back once, by whichever
      Remove finds it, and not before. */
  lemma {:induction false} SlotsConserved(run: seq<State>, k: nat)
    requires IsRun(run) && k < |run|
    ensures var s := run[k];
            && s.connections == |s.clients| + s.pending
            && (s.connections <= s.maxConn || s.connections == 0)
            && forall id :: id in s.table ==> s.table[id].releases == if id in s.clients then 0 else 1
  {
    RunKeepsInv(run, k);
  }

  /** Delivery order: what the write pump has handed to a connection, broadcast-wise, is a strictly
      increasing list of positions in the hub's one broadcast order, starting at its Add. */
  lemma {:induction false} DeliveredInHubOrder(run: seq<State>, k: nat, id: nat)
    requires IsRun(run) && k < |run| && id in run[k].table
    ensures var c := run[k].table[id];
            && c.sent <= |c.pushes| <= c.sent + 256
            && Ascending(Broadcasts(c.pushes[..c.sent]))
            && forall i :: 0 <= i < |Broadcasts(c.pushes[..c.sent])| ==>
                 c.addedAt <= Broadcasts(c.pushes[..c.sent])[i] < |run[k].log|
  {
    RunKeepsInv(run, k);
    var c := run[k].table[id];
    assert Ordered(run[k], id);
    BroadcastsPrefix(c.pushes, c.sent);
  }

  /** A broadcast that has returned was accepted by every client registered since before it. */
  lemma {:induction false} ReturnedBroadcastReached(run: seq<State>, j: nat, id: nat, k: nat)
    requires IsRun(run) && j < |run| && id in run[j].clients && id in run[j].table
    requires run[j].table[id].addedAt <= k < |run[j].log|
    requires k !in run[j].removing && (run[j].lock.Some? ==> run[j].lock.value.index != k)
    ensures Broadcast(k) in run[j].table[id].pushes
  {
    RunKeepsInv(run, j);
    assert Complete(run[j], id);
    assert (k as int) in Broadcasts(run[j].table[id].pushes) || Owed(run[j], id, k);
    BroadcastIsPushed(run[j].table[id].pushes, k);
  }

  /** Whenever no Broadcast is running, a registered client has accepted exactly the broadcasts
      since its Add, each once and in order. */
  lemma {:induction false} NothingMissedAtRest(run: seq<State>, j: nat, id: nat)
    requires IsRun(run) && j < |run| && id in run[j].clients
    requires run[j].lock.None? && run[j].removing == map[]
    ensures id in run[j].table
    ensures Broadcasts(run[j].table[id].pushes) == Listing(Range(run[j].table[id].addedAt, |run[j].log|))
  {
    RunKeepsInv(run, j);
    HeardAtRest(run[j], id);
  }

  lemma {:induction false} HeardAtRest(s: State, id: nat)
    requires Inv(s) && id in s.clients && s.lock.None? && s.removing == map[]
    ensures id in s.table
    ensures Broadcasts(s.table[id].pushes) == Listing(Range(s.table[id].addedAt, |s.log|))
  {
    var i :| 0 <= i < |s.clients| && s.clients[i] == id;
    assert Ordered(s, id) && Complete(s, id);
    var heard := Broadcasts(s.table[id].pushes);
    forall x ensures x in heard <==> x in Range(s.table[id].addedAt, |s.log|) {
      if x in Range(s.table[id].addedAt, |s.log|) {
        var k: nat := x;
        assert (k as int) in heard || Owed(s, id, k);
      }
    }
    ListingUnique(heard, Range(s.table[id].addedAt, |s.log|));
  }

  // ---------------------------------------------------------------- every broadcast comes to its end

  /** The moves of running broadcasts. */
  predicate IsOwn(a: Step) {
    a.Offer? || a.EndFanOut? || a.RemoveStale? || a.EndBroadcast?
  }

  ghost predicate OwnMove(s: State, t: State) {
    exists a :: IsOwn(a) && Enabled(s, a) && t == Apply(s, a)
  }

  ghost predicate OwnRun(run: seq<State>) {
    |run| > 0 && forall k :: 0 <= k < |run| - 1 ==> OwnMove(run[k], run[k + 1])
  }

  ghost function Last(run: seq<State>): State
    requires |run| > 0
  {
    run[|run| - 1]
  }

  lemma {:induction false} Then(run: seq<State>, a: Step) returns (longer: seq<State>)
    requires OwnRun(run) && Inv(Last(run)) && IsOwn(a) && Enabled(Last(run), a)
    ensures OwnRun(longer) && longer[0] == run[0] && Last(longer) == Apply(Last(run), a) && Inv(Last(longer))
  {
    longer := run + [Apply(Last(run), a)];
    StepKeepsInv(Last(run), a);
    assert OwnMove(Last(run), Apply(Last(run), a));
    forall k | 0 <= k < |longer| - 1 ensures OwnMove(longer[k], longer[k + 1]) {
      if k < |run| - 1 { assert OwnMove(run[k], run[k + 1]); }
    }
  }

  lemma {:induction false} FanOutEnds(run: seq<State>) returns (longer: seq<State>)
    requires OwnRun(run) && Inv(Last(run))
    ensures OwnRun(longer) && longer[0] == run[0] && Inv(Last(longer))
    ensures Last(longer).lock.None? && Last(longer).log == Last(run).log
    decreases if Last(run).lock.Some? then |Last(run).clients| - Last(run).lock.value.next + 1 else 0
  {
    var s := Last(run);
    if s.lock.None? {
      longer := run;
    } else if s.lock.value.next == |s.clients| {
      longer := Then(run, EndFanOut);
    } else {
      longer := Then(run, Offer);
      longer := FanOutEnds(longer);
    }
  }

  lemma {:induction false} RemovalsEnd(run: seq<State>, k: nat) returns (longer: seq<State>)
    requires OwnRun(run) && Inv(Last(run)) && Last(run).lock.None? && k in Last(run).removing
    ensures OwnRun(longer) && longer[0] == run[0] && Inv(Last(longer))
    ensures Last(longer).lock.None? && Last(longer).log == Last(run).log
    ensures Last(longer).removing == Last(run).removing - {k}
    decreases |Last(run).removing[k]|
  {
    var s := Last(run);
    if s.removing[k] == {} {
      longer := Then(run, EndBroadcast(k));
    } else {
      var id := Pick(s.removing[k]);
      var next := Then(run, RemoveStale(k, id));
      assert Last(next).removing[k] == s.removing[k] - {id};
      assert Last(next).removing - {k} == s.removing - {k};
      longer := RemovalsEnd(next, k);
    }
  }

  lemma {:induction false} AllRemovalsEnd(run: seq<State>) returns (longer: seq<State>)
    requires OwnRun(run) && Inv(Last(run)) && Last(run).lock.None?
    ensures OwnRun(longer) && longer[0] == run[0] && Inv(Last(longer))
    ensures Last(longer).lock.None? && Last(longer).log == Last(run).log && Last(longer).removing == map[]
    decreases |Last(run).removing|
  {
    var s := Last(run);
    if s.removing.Keys == {} {
      longer := run;
    } else {
      var k := Pick(s.removing.Keys);
      var next := RemovalsEnd(run, k);
      assert Last(next).removing.Keys == s.removing.Keys - {k};
      assert |Last(next).removing| == |Last(next).removing.Keys| && |s.removing| == |s.removing.Keys|;
      longer := AllRemovalsEnd(next);
    }
  }

  /** From every reachable state the running broadcasts come to their end by their own moves, and then
      every client still registered has accepted every broadcast since its Add, each once. */
  lemma {:induction false} BroadcastsEnd(run: seq<State>, k: nat) returns (rest: seq<State>)
    requires IsRun(run) && k < |run|
    ensures OwnRun(rest) && rest[0] == run[k]
    ensures var t := Last(rest);
            && t.lock.None? && t.removing == map[] && t.log == run[k].log
            && forall id :: id in t.clients ==>
                 id in t.table && Broadcasts(t.table[id].pushes) == Listing(Range(t.table[id].addedAt, |t.log|))
  {
    RunKeepsInv(run, k);
    rest := FanOutEnds([run[k]]);
    rest := AllRemovalsEnd(rest);
    var t := Last(rest);
    forall id | id in t.clients
      ensures id in t.table && Broadcasts(t.table[id].pushes) == Listing(Range(t.table[id].addedAt, |t.log|))
    {
      HeardAtRest(t, id);
    }
  }

  /** The write pump hands over what the queue accepted, one message at a time and in order. */
  lemma {:induction false} PumpHandsOverNext(s: State, id: nat)
    requires Enabled(s, Pump(id))
    ensures var c, d := s.table[id], Apply(s, Pump(id)).table[id];
            d.pushes == c.pushes && d.pushes[..d.sent] == c.pushes[..c.sent] + [c.pushes[c.sent]]
  {
  }

  // ---------------------------------------------------------------- after a removal

  /** A run that takes these steps. */
  ghost predicate Takes(run: seq<State>, steps: seq<Step>) {
    && IsRun(run) && |run| == |steps| + 1
    && forall k :: 0 <= k < |steps| ==> Enabled(run[k], steps[k]) && run[k + 1] == Apply(run[k], steps[k])
  }

  lemma {:induction false} RemovedStep(s: State, a: Step, id: nat)
    requires Slots(s) && Enabled(s, a) && id in s.table && id !in s.clients
    ensures var t := Apply(s, a);
            && id in t.table && id !in t.clients && (s.table[id].done ==> t.table[id].done)
            && Broadcasts(t.table[id].pushes) == Broadcasts(s.table[id].pushes)
  {
    match a
    case Remove(x) => UnregisterTable(s, x, id); ExceptMembers(s.clients, {x});
    case RemoveStale(k, x) => UnregisterTable(s, x, id); ExceptMembers(s.clients, {x});
    case Push(x, msg) => BroadcastsSnoc(s.table[x].pushes, Direct(msg));
    case Offer => assert s.clients[s.lock.value.next] in s.clients;
    case _ =>
  }

  /** A removed client is closed by its closing, and stays closed. */
  lemma {:induction false} ClosedForGood(run: seq<State>, steps: seq<Step>, i: nat, j: nat, id: nat)
    requires Takes(run, steps) && i < j < |run| && steps[i] == Close(id)
    ensures id in run[j].table && id !in run[j].clients && run[j].table[id].done
  {
    assert Enabled(run[i], steps[i]);
    RemovedThen(run, steps, i, id);
    RemovedForGood(run, steps, i + 1, j, id);
  }

  /** A removed client is never registered again and accepts no further broadcast; and once closed it
      stays closed. */
  lemma {:induction false} RemovedForGood(run: seq<State>, steps: seq<Step>, i: nat, j: nat, id: nat)
    requires Takes(run, steps) && i <= j < |run| && id in run[i].table && id !in run[i].clients
    ensures id in run[j].table && id !in run[j].clients
    ensures Broadcasts(run[j].table[id].pushes) == Broadcasts(run[i].table[id].pushes)
    ensures run[i].table[id].done ==> run[j].table[id].done
    decreases j
  {
    if i < j {
      RemovedForGood(run, steps, i, j - 1, id);
      RemovedThen(run, steps, j - 1, id);
    }
  }

  lemma {:induction false} RemovedThen(run: seq<State>, steps: seq<Step>, k: nat, id: nat)
    requires Takes(run, steps) && k < |steps| && id in run[k].table && id !in run[k].clients
    ensures var s, t := run[k], run[k + 1];
            && id in t.table && id !in t.clients
            && Broadcasts(t.table[id].pushes) == Broadcasts(s.table[id].pushes)
            && (s.table[id].done || steps[k] == Close(id) ==> t.table[id].done)
  {
    RunKeepsInv(run, k);
    RemovedStep(run[k], steps[k], id);
  }

  /** Giving a reservation back frees its slot; a Remove that finds the client takes that one out of the
      list and frees its slot, and any other Remove changes neither. */
  lemma {:induction false} SlotsComeBack(s: State, id: nat)
    requires Inv(s)
    ensures Enabled(s, Unreserve) ==>
              var t := Apply(s, Unreserve);
              t.clients == s.clients && t.connections == s.connections - 1 && t.pending == s.pending - 1
    ensures Enabled(s, Remove(id)) ==>
              var t := Apply(s, Remove(id));
              && t.connections == s.connections - (if id in s.clients then 1 else 0) && t.pending == s.pending
              && forall x :: x in t.clients <==> x in s.clients && x != id
  {
    ExceptMembers(s.clients, {id});
  }
}
