/**
 * The message router: what the service sends in reply to one inbound frame.
 * Each function gives the events appended to the outbox; the registry itself
 * is never changed by a frame.
 */
module Router {
  import opened Wrappers
  import opened Protocol
  import opened Registry

  /** The name the server signs its own messages with. */
  const Server: string := "server"

  /** The acknowledgement a client gets when it connects. */
  function JoinAck(id: Id, now: int): (m: Message)
    requires now > 0
    ensures WellFormed(m) && m.kind == Join && m.from == Some(Server) && m.to == None
  {
    Message(Join, Some(Server), None, Some("Connected with ID: " + id), now)
  }

  /** The reply to a frame that is not JSON or does not satisfy the message schema. */
  function InvalidFormat(now: int): (m: Message)
    requires now > 0
    ensures WellFormed(m) && m.kind == Chat && m.from == Some(Server) && m.to == None
  {
    Message(Chat, Some(Server), None, Some("Invalid message format"), now)
  }

  /** The reply to a `ping` message. */
  function PongReply(now: int): (m: Message)
    requires now > 0
    ensures WellFormed(m) && m.kind == Pong && m.from == Some(Server) && m.content == None
  {
    Message(Pong, Some(Server), None, None, now)
  }

  /**
   * A client's `message` as relayed: the sender's id and the current time
   * replace whatever `from` and `timestamp` the client put there.
   */
  function Relayed(m: Message, sender: Id, now: int): (r: Message)
    requires WellFormed(m) && now > 0
    ensures WellFormed(r)
    ensures r.kind == m.kind && r.to == m.to && r.content == m.content
    ensures r.from == Some(sender) && r.timestamp == now
  {
    m.(from := Some(sender), timestamp := now)
  }

  /** `sendMessage`: a message goes out only on a socket in the OPEN state. */
  function Send(open: map<Id, bool>, id: Id, msg: Message): (r: seq<Event>)
    ensures |r| <= 1
    ensures forall e :: e in r <==> e == Deliver(id, msg) && id in open && open[id]
  {
    if id in open && open[id] then [Deliver(id, msg)] else []
  }

  /**
   * `broadcast`: one copy to every client of `ids`, in order, other than the
   * sender and whose socket is open.
   */
  function BroadcastTo(ids: seq<Id>, open: map<Id, bool>, sender: Id, msg: Message): seq<Event> {
    if ids == [] then []
    else
      var last := ids[|ids| - 1];
      BroadcastTo(ids[..|ids| - 1], open, sender, msg)
        + (if last != sender && last in open && open[last] then [Deliver(last, msg)] else [])
  }

  /** A broadcast delivers `msg` to exactly the ids of the list other than the sender whose socket is open. */
  lemma {:induction false} BroadcastMembers(ids: seq<Id>, open: map<Id, bool>, sender: Id, msg: Message)
    ensures forall e :: e in BroadcastTo(ids, open, sender, msg) <==>
      e.Deliver? && e.msg == msg && e.to in ids && e.to != sender && e.to in open && open[e.to]
  {
    if ids != [] {
      var init := ids[..|ids| - 1];
      assert forall k :: k in ids <==> k in init || k == ids[|ids| - 1] by {
        assert ids == init + [ids[|ids| - 1]];
      }
      BroadcastMembers(init, open, sender, msg);
    }
  }

  /** Extending the list by one id extends the broadcast by that id's copy, if it gets one. */
  lemma BroadcastStep(ids: seq<Id>, i: int, open: map<Id, bool>, sender: Id, msg: Message)
    requires 0 <= i < |ids| && ids[i] in open
    ensures BroadcastTo(ids[..i + 1], open, sender, msg)
         == BroadcastTo(ids[..i], open, sender, msg)
          + (if ids[i] != sender && open[ids[i]] then [Deliver(ids[i], msg)] else [])
  {
    assert ids[..i + 1][..i] == ids[..i];
  }

  /** No two events of `r` go to the same connection. */
  predicate OncePerRecipient(r: seq<Event>) {
    forall i, j :: 0 <= i < j < |r| ==> r[i].to != r[j].to
  }

  /** A broadcast over a list without repetitions reaches each recipient once. */
  lemma {:induction false} BroadcastOnce(ids: seq<Id>, open: map<Id, bool>, sender: Id, msg: Message)
    requires Distinct(ids)
    ensures OncePerRecipient(BroadcastTo(ids, open, sender, msg))
  {
    if ids != [] {
      var init := ids[..|ids| - 1];
      var last := ids[|ids| - 1];
      assert Distinct(init);
      BroadcastOnce(init, open, sender, msg);
      var r0 := BroadcastTo(init, open, sender, msg);
      var r := BroadcastTo(ids, open, sender, msg);
      assert last !in init;
      assert r == r0 + (if last != sender && last in open && open[last] then [Deliver(last, msg)] else []);
      forall i, j | 0 <= i < j < |r| ensures r[i].to != r[j].to {
        if j < |r0| {
          assert r[i] == r0[i] && r[j] == r0[j];
          assert r0[i].to != r0[j].to;
        } else {
          assert r[j] == Deliver(last, msg);
          BroadcastMembers(init, open, sender, msg);
          assert r[i] == r0[i] && r0[i] in r0;
        }
      }
    }
  }

  /**
   * `handleMessage`: the events sent for a validated message from `sender`.
   * Everything sent goes to a registered client whose socket is open, and
   * is itself a valid message.
   */
  function Route(h: Hub, sender: Id, m: Message, now: int): (r: seq<Event>)
    requires Valid(h) && WellFormed(m) && now > 0
    ensures forall e :: e in r ==>
      e.Deliver? && e.to in h.alive && e.to in h.open && h.open[e.to] && WellFormed(e.msg)
    ensures sender !in h.alive ==> r == []
  {
    if sender !in h.alive then []
    else
      match m.kind
      case Chat =>
        var relay := Relayed(m, sender, now);
        if m.to.Some? && m.to.value in h.alive then Send(h.open, m.to.value, relay)
        else
          BroadcastMembers(h.ids, h.open, sender, relay);
          BroadcastTo(h.ids, h.open, sender, relay)
      case Ping => Send(h.open, sender, PongReply(now))
      case _ => []
  }

  /** A `message` addressed to a registered client reaches that client only, stamped. */
  lemma RouteDirect(h: Hub, sender: Id, m: Message, now: int)
    requires Valid(h) && WellFormed(m) && now > 0
    requires sender in h.alive && m.kind == Chat && m.to.Some? && m.to.value in h.alive
    ensures var r := Route(h, sender, m, now);
      && |r| == (if h.open[m.to.value] then 1 else 0)
      && (forall e :: e in r <==> e == Deliver(m.to.value, Relayed(m, sender, now)) && h.open[m.to.value])
  {
  }

  /**
   * A `message` with no `to`, or whose `to` is not registered, reaches
   * exactly the other registered clients with an open socket, each once,
   * stamped with the sender's id; the sender never gets it.
   */
  lemma RouteBroadcast(h: Hub, sender: Id, m: Message, now: int)
    requires Valid(h) && WellFormed(m) && now > 0
    requires sender in h.alive && m.kind == Chat && !(m.to.Some? && m.to.value in h.alive)
    ensures var r := Route(h, sender, m, now);
      && (forall e :: e in r <==>
            e.Deliver? && e.msg == Relayed(m, sender, now)
            && e.to in h.alive && e.to != sender && h.open[e.to])
      && OncePerRecipient(r)
  {
    var relay := Relayed(m, sender, now);
    assert Route(h, sender, m, now) == BroadcastTo(h.ids, h.open, sender, relay);
    BroadcastMembers(h.ids, h.open, sender, relay);
    BroadcastOnce(h.ids, h.open, sender, relay);
  }

  /** A `ping` gets one `pong` from the server, to the sender alone (if its socket is open). */
  lemma RoutePing(h: Hub, sender: Id, m: Message, now: int)
    requires Valid(h) && WellFormed(m) && now > 0
    requires sender in h.alive && m.kind == Ping
    ensures Route(h, sender, m, now)
         == if h.open[sender] then [Deliver(sender, PongReply(now))] else []
  {
  }

  /** `join`, `leave` and `pong` messages from a client are not relayed. */
  lemma RouteIgnores(h: Hub, sender: Id, m: Message, now: int)
    requires Valid(h) && WellFormed(m) && now > 0
    requires m.kind == Join || m.kind == Leave || m.kind == Pong
    ensures Route(h, sender, m, now) == []
  {
  }

  /**
   * The inbound-frame handler: `frame` is the result of `JSON.parse` (`None`
   * when the bytes are not JSON). A frame that parses and validates is
   * routed; any other gets the error reply, on the sender's own socket.
   */
  function FrameReplies(h: Hub, id: Id, frame: Option<Json>, now: int): (r: seq<Event>)
    requires Valid(h) && id in h.open && now > 0
    ensures forall e :: e in r ==> e.Deliver? && e.to in h.open && h.open[e.to] && WellFormed(e.msg)
  {
    match frame
    case None => Send(h.open, id, InvalidFormat(now))
    case Some(j) =>
      match ParseMessage(j)
      case None => Send(h.open, id, InvalidFormat(now))
      case Some(m) => Route(h, id, m, now)
  }

  /** A frame that is not a valid message gets exactly one error reply, to its sender only. */
  lemma RejectedFrame(h: Hub, id: Id, frame: Option<Json>, now: int)
    requires Valid(h) && id in h.open && now > 0
    requires frame.None? || ParseMessage(frame.value).None?
    requires h.open[id]
    ensures FrameReplies(h, id, frame, now) == [Deliver(id, InvalidFormat(now))]
    ensures InvalidFormat(now).content == Some("Invalid message format")
  {
  }

  /** A frame from an id no longer registered, if it is a valid message, sends nothing. */
  lemma UnregisteredSenderIgnored(h: Hub, id: Id, j: Json, now: int)
    requires Valid(h) && id in h.open && now > 0
    requires id !in h.alive && ParseMessage(j).Some?
    ensures FrameReplies(h, id, Some(j), now) == []
  {
  }
}
