/**
 * internal/ws/hub.go: the clients of one channel, their bounded send queues and the connection
 * count, as the objects they are. Each method is one call that runs without interference; HubRuns
 * interleaves the parts of these calls.
 */
module Hub {
  import opened Prelude

  const SEND_BUFFER: nat := 256

  // ---------------------------------------------------------------- the objects

  predicate Accepts<M>(send: seq<M>, done: bool) {
    !done && |send| < SEND_BUFFER
  }

  class Client<M> {
    var send: seq<M>
    var done: bool

    constructor ()
      ensures send == [] && !done
    {
      send, done := [], false;
    }

    /** Queues without blocking; refuses when removed or full. */
    method TrySend(msg: M) returns (ok: bool)
      modifies this`send
      ensures ok == Accepts(old(send), done) == (!done && |old(send)| < 256)
      ensures send == if ok then old(send) + [msg] else old(send)
    {
      if done { return false; }
      if |send| < SEND_BUFFER {
        send := send + [msg];
        return true;
      }
      return false;
    }
  }

  class Hub<M> {
    const maxConn: int
    var clients: seq<Client<M>>
    var connections: int

    /** Registered clients are distinct, open, and each holds a reserved slot. */
    ghost predicate Valid()
      reads this, clients
    {
      && Distinct(clients)
      && (forall c :: c in clients ==> !c.done)
      && |clients| <= connections
      && (connections <= maxConn || connections == |clients| == 0)
    }

    /** Slots taken by Reserve whose client is not registered yet. */
    ghost function Pending(): int
      reads this
    {
      connections - |clients|
    }

    constructor (maxConn: int)
      ensures Valid() && clients == [] && connections == 0 && this.maxConn == maxConn
    {
      this.maxConn := maxConn;
      clients, connections := [], 0;
    }

    method Reserve() returns (ok: bool)
      requires Valid()
      modifies this`connections
      ensures Valid()
      ensures ok <==> old(connections) < maxConn
      ensures Pending() == old(Pending()) + (if ok then 1 else 0)
    {
      if connections >= maxConn { return false; }
      connections := connections + 1;
      return true;
    }

    method Unreserve()
      requires Valid() && Pending() > 0
      modifies this`connections
      ensures Valid() && Pending() == old(Pending()) - 1
    {
      connections := connections - 1;
    }

    method Add() returns (c: Client<M>)
      requires Valid() && Pending() > 0
      modifies this`clients
      ensures Valid() && fresh(c) && c.send == []
      ensures clients == old(clients) + [c]
    {
      c := new Client<M>();
      clients := clients + [c];
    }

    /** Idempotent: only the call that finds the client gives its slot back and closes it. */
    method Remove(c: Client<M>) returns (found: bool)
      requires Valid()
      modifies this`clients, this`connections, c`done
      ensures Valid()
      ensures found == (c in old(clients))
      ensures clients == Except(old(clients), {c})
      ensures Pending() == old(Pending())
      ensures |clients| == old(|clients|) - (if found then 1 else 0)
      ensures c.done == (old(c.done) || found)
    {
      found := false;
      var i := 0;
      while i < |clients|
        invariant 0 <= i <= |clients|
        invariant c !in clients[..i]
      {
        if clients[i] == c {
          found := true;
          break;
        }
        i := i + 1;
      }
      if !found {
        assert clients[..|clients|] == clients;
        ExceptNothing(clients, {c});
        return;
      }
      DeleteAt(clients, i);
      ExceptDistinct(clients, {c});
      ExceptMembers(clients, {c});
      clients := clients[..i] + clients[i + 1..];
      connections := connections - 1;
      c.done := true;
    }

    /** Registered clients that would refuse a message now. */
    ghost function Refusing(): (cs: set<Client<M>>)
      reads this, clients
    {
      set c | c in clients && !Accepts(c.send, c.done)
    }

    /** The loop under the lock: every registered client is offered the message once. */
    method FanOut(msg: M) returns (stale: seq<Client<M>>)
      requires Valid()
      modifies clients`send
      ensures Valid() && clients == old(clients) && connections == old(connections)
      ensures Distinct(stale) && forall c :: c in stale <==> c in old(Refusing())
      ensures forall c :: c in clients ==>
                c.send == old(c.send) + (if c in old(Refusing()) then [] else [msg])
    {
      stale := [];
      for i := 0 to |clients|
        invariant clients == old(clients) && connections == old(connections) && Valid()
        invariant forall c :: c in stale <==> c in clients[..i] && c in old(Refusing())
        invariant Distinct(stale)
        invariant forall j :: 0 <= j < i ==>
                    clients[j].send == old(clients[j].send) + (if clients[j] in old(Refusing()) then [] else [msg])
        invariant forall j :: i <= j < |clients| ==> clients[j].send == old(clients[j].send)
      {
        var c := clients[i];
        assert c !in clients[..i];
        var ok := c.TrySend(msg);
        if !ok {
          stale := stale + [c];
        }
        assert clients[..i + 1] == clients[..i] + [c];
      }
      assert clients[..|clients|] == clients;
    }

    /** The calls of Remove after the lock is released. */
    method RemoveAll(stale: seq<Client<M>>)
      requires Valid() && Distinct(stale) && forall i :: 0 <= i < |stale| ==> stale[i] in clients
      modifies this`clients, this`connections, stale`done
      ensures Valid() && Pending() == old(Pending())
      ensures clients == Except(old(clients), Elements(stale))
      ensures forall c :: c in stale ==> c.done
    {
      ghost var before, gone := clients, {};
      ExceptNothing(before, {});
      for j := 0 to |stale|
        invariant Valid() && Pending() == old(Pending())
        invariant gone == Elements(stale[..j]) && clients == Except(before, gone)
        invariant forall c :: c in gone ==> c.done
      {
        ExceptNext(before, stale, j, gone);
        var c := stale[j];
        var _ := Remove(c);
        gone := gone + {c};
      }
      assert stale[..|stale|] == stale;
    }

    /** Clients that accept get the message; the others lose their registration and their slot. */
    method Broadcast(msg: M)
      requires Valid()
      modifies this`clients, this`connections, clients
      ensures Valid()
      ensures clients == Except(old(clients), old(Refusing()))
      ensures Pending() == old(Pending())
      ensures forall c :: c in old(clients) ==>
                && c.send == old(c.send) + (if c in old(Refusing()) then [] else [msg])
                && c.done == (c in old(Refusing()))
    {
      ghost var refusing := Refusing();
      var stale := FanOut(msg);
      forall i | 0 <= i < |stale| ensures stale[i] in clients {
        assert stale[i] in stale && stale[i] in refusing;
      }
      RemoveAll(stale);
      assert Elements(stale) == refusing;
    }
  }
}
