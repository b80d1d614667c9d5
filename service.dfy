/**
 * The chat service itself: one object holding the client registry, the
 * sockets' states and the outbox, and one method per event handler. Each
 * handler is proved to move the object's state exactly as the matching
 * transition of `Lifecycle` says; the sending helpers append exactly the
 * events `Router` gives.
 */
module Service {
  import opened Wrappers
  import opened Protocol
  import opened Registry
  import opened Router
  import opened Lifecycle

  class WebSocketService {
    /** The registry's ids, in insertion order. */
    var ids: seq<Id>
    /** The registry: each connected client's `isAlive` flag. */
    var clients: map<Id, bool>
    /** Whether each accepted socket is in the OPEN state. */
    var open: map<Id, bool>
    /** Everything put on the wire so far. */
    var outbox: seq<Event>

    ghost function Model(): Hub
      reads this
    {
      Hub(ids, clients, open, outbox)
    }

    ghost predicate Valid()
      reads this
    {
      Registry.Valid(Model())
    }

    constructor ()
      ensures Valid() && Model() == Empty
    {
      ids, clients, open, outbox := [], map[], map[], [];
    }

    /** `sendMessage`: write the message only if the socket is open. */
    method SendMessage(id: Id, msg: Message)
      modifies this`outbox
      ensures outbox == old(outbox) + Send(open, id, msg)
    {
      if id in open && open[id] {
        outbox := outbox + [Deliver(id, msg)];
      }
    }

    /** The 'connection' handler: register the new client and acknowledge it. */
    method OnConnection(id: Id, now: int)
      requires Valid() && IsUuid(id) && id !in open && now > 0
      modifies this
      ensures Valid() && Model() == Connected(old(Model()), id, now)
    {
      ids := ids + [id];
      clients := clients[id := true];
      open := open[id := true];
      SendMessage(id, JoinAck(id, now));
    }

    /**
     * The 'message' handler: `frame` is what `JSON.parse` made of the bytes,
     * `None` if it threw. Valid messages are dispatched, anything else gets
     * the error reply.
     */
    method OnMessage(id: Id, frame: Option<Json>, now: int)
      requires Valid() && id in open && now > 0
      modifies this`outbox
      ensures Valid() && Model() == FrameHandled(old(Model()), id, frame, now)
    {
      match frame {
        case None =>
          SendMessage(id, InvalidFormat(now));
        case Some(j) =>
          var parsed := ParseMessage(j);
          match parsed {
            case None =>
              SendMessage(id, InvalidFormat(now));
            case Some(m) =>
              HandleMessage(id, m, now);
          }
      }
    }

    /** `handleMessage`: the dispatch policy for a validated message. */
    method HandleMessage(sender: Id, m: Message, now: int)
      requires Valid() && WellFormed(m) && now > 0
      modifies this`outbox
      ensures outbox == old(outbox) + Route(old(Model()), sender, m, now)
    {
      if sender !in clients {
        return;
      }
      match m.kind {
        case Chat =>
          var relay := Relayed(m, sender, now);
          if m.to.Some? && m.to.value in clients {
            SendMessage(m.to.value, relay);
          } else {
            Broadcast(sender, relay);
          }
        case Ping =>
          SendMessage(sender, PongReply(now));
        case _ =>
      }
    }

    /** `broadcast`: send to every registered client but the sender whose socket is open. */
    method Broadcast(sender: Id, msg: Message)
      requires forall k :: k in ids ==> k in open
      modifies this`outbox
      ensures outbox == old(outbox) + BroadcastTo(ids, open, sender, msg)
    {
      var i := 0;
      while i < |ids|
        invariant 0 <= i <= |ids|
        invariant outbox == old(outbox) + BroadcastTo(ids[..i], open, sender, msg)
      {
        var c := ids[i];
        BroadcastStep(ids, i, open, sender, msg);
        ghost var done := BroadcastTo(ids[..i], open, sender, msg);
        if c != sender && open[c] {
          SendMessage(c, msg);
          assert old(outbox) + done + [Deliver(c, msg)] == old(outbox) + (done + [Deliver(c, msg)]);
        }
        i := i + 1;
      }
      assert ids[..i] == ids;
    }

    /** The transport 'pong' handler: the client answered the last probe. */
    method OnPong(id: Id)
      requires Valid() && id in open
      modifies this`clients
      ensures Valid() && Model() == Revived(old(Model()), id)
    {
      if id in clients {
        clients := clients[id := true];
      }
    }

    /** The socket leaves the OPEN state ahead of its 'close' event. */
    method OnClosing(id: Id)
      requires Valid() && id in open
      modifies this`open
      ensures Valid() && Model() == Closing(old(Model()), id)
    {
      open := open[id := false];
    }

    /** The 'close' handler: delete the entry; a no-op if it is already gone. */
    method OnClose(id: Id)
      requires Valid() && id in open
      modifies this
      ensures Valid() && Model() == Closed(old(Model()), id)
    {
      open := open[id := false];
      clients := clients - {id};
      ids := Without(ids, id);
    }

    /**
     * One heartbeat, over a snapshot of the registry: evict and terminate
     * every client that did not answer the last probe, probe the others.
     */
    method Heartbeat()
      requires Valid()
      modifies this
      ensures Valid() && Model() == Swept(old(Model()))
    {
      ghost var before := Model();
      var snapshot := ids;
      var i := 0;
      while i < |snapshot|
        invariant 0 <= i <= |snapshot| && snapshot == before.ids
        invariant Model() == SweepOver(before, snapshot[..i])
      {
        var c := snapshot[i];
        assert snapshot[..i + 1][..i] == snapshot[..i];
        assert SweepOver(before, snapshot[..i + 1]) == SweepOne(Model(), c);
        SweepEntry(c);
        i := i + 1;
      }
      assert snapshot[..i] == snapshot;
    }

    /**
     * The heartbeat's callback for one entry: nothing if it is gone; evict
     * and terminate it if it did not answer the last probe; otherwise clear
     * its flag and ping it.
     */
    method SweepEntry(c: Id)
      requires Valid()
      modifies this
      ensures Valid() && Model() == SweepOne(old(Model()), c)
    {
      ghost var target := SweepOne(Model(), c);
      if c in clients {
        if !clients[c] {
          clients := clients - {c};
          ids := Without(ids, c);
          open := open[c := false];
          outbox := outbox + [Terminate(c)];
        } else {
          clients := clients[c := false];
          if open[c] {
            outbox := outbox + [Probe(c)];
          }
        }
      }
      assert Model() == target;
    }

    /** The ids of the connected clients, in the order they connected. */
    method GetConnectedClients() returns (r: seq<Id>)
      requires Valid()
      ensures r == ids
      ensures forall k :: k in r <==> k in clients
      ensures |r| == |clients|
    {
      r := ids;
      CountMatchesIds(Model());
    }

    /** The number of connected clients: the length of `GetConnectedClients`. */
    method GetClientCount() returns (n: nat)
      requires Valid()
      ensures n == |clients| && n == |ids|
    {
      n := |clients|;
      CountMatchesIds(Model());
    }
  }
}
