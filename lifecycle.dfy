/**
 * How each event the service reacts to changes its state: a connection is
 * accepted, a frame arrives, a transport pong arrives, a socket starts or
 * finishes closing, the heartbeat timer fires. Each handler runs to
 * completion before the next starts, so each is one function from state to
 * state.
 */
module Lifecycle {
  import opened Wrappers
  import opened Protocol
  import opened Registry
  import opened Router

  /** Accepting a socket with a fresh id: register it as alive and acknowledge it. */
  function Connected(h: Hub, id: Id, now: int): (r: Hub)
    requires Valid(h) && IsUuid(id) && id !in h.open && now > 0
    ensures Valid(r)
  {
    var open := h.open[id := true];
    Hub(h.ids + [id], h.alive[id := true], open, h.outbox + Send(open, id, JoinAck(id, now)))
  }

  /**
   * Connecting adds exactly one entry, alive, raises the count by one, and
   * sends exactly one `join` from the server, to the new client.
   */
  lemma ConnectAddsOne(h: Hub, id: Id, now: int)
    requires Valid(h) && IsUuid(id) && id !in h.open && now > 0
    ensures var r := Connected(h, id, now);
      && r.alive == h.alive[id := true]
      && r.ids == h.ids + [id] && r.open == h.open[id := true]
      && id !in h.alive
      && |r.alive| == |h.alive| + 1
      && |r.ids| == |r.alive|
      && r.outbox == h.outbox + [Deliver(id, JoinAck(id, now))]
  {
    var r := Connected(h, id, now);
    CountMatchesIds(h);
    CountMatchesIds(r);
  }

  /** The 'close' event: the socket is closed and its entry, if any, deleted. */
  function Closed(h: Hub, id: Id): (r: Hub)
    requires Valid(h) && id in h.open
    ensures Valid(r)
  {
    Hub(Without(h.ids, id), h.alive - {id}, h.open[id := false], h.outbox)
  }

  /**
   * Closing removes the id and leaves every other entry as it was; nothing
   * is sent.
   */
  lemma CloseRemoves(h: Hub, id: Id)
    requires Valid(h) && id in h.open
    ensures id !in Closed(h, id).alive
    ensures forall k :: k != id ==> (k in Closed(h, id).alive <==> k in h.alive)
    ensures forall k :: k in Closed(h, id).alive ==> Closed(h, id).alive[k] == h.alive[k]
    ensures |Closed(h, id).alive| == |h.alive| - (if id in h.alive then 1 else 0)
    ensures Closed(h, id).ids == Without(h.ids, id) && Closed(h, id).open == h.open[id := false]
    ensures Closed(h, id).outbox == h.outbox
  {
  }

  /** Closing an id already gone (after a heartbeat eviction, say) leaves the registry as it is. */
  lemma CloseAbsentIsNoOp(h: Hub, id: Id)
    requires Valid(h) && id in h.open && id !in h.alive
    ensures Closed(h, id).ids == h.ids && Closed(h, id).alive == h.alive
  {
    WithoutAbsent(h.ids, id);
  }

  /** A second close of the same id changes nothing. */
  lemma CloseIdempotent(h: Hub, id: Id)
    requires Valid(h) && id in h.open
    ensures Closed(Closed(h, id), id) == Closed(h, id)
  {
    var r := Closed(h, id);
    WithoutAbsent(r.ids, id);
    assert r.alive - {id} == r.alive;
    assert r.open[id := false] == r.open;
  }

  /** A transport pong marks the entry alive, if it is still registered. */
  function Revived(h: Hub, id: Id): (r: Hub)
    requires Valid(h) && id in h.open
    ensures Valid(r)
  {
    if id in h.alive then h.(alive := h.alive[id := true]) else h
  }

  /** A pong sets only its own entry's flag, and never registers an id. */
  lemma PongSetsAlive(h: Hub, id: Id)
    requires Valid(h) && id in h.open
    ensures var r := Revived(h, id);
      && r.alive.Keys == h.alive.Keys && r.ids == h.ids && r.open == h.open && r.outbox == h.outbox
      && (id in h.alive ==> r.alive[id])
      && (forall k :: k in h.alive && k != id ==> r.alive[k] == h.alive[k])
  {
  }

  /**
   * The socket leaves the OPEN state (a closing handshake starts, or the
   * transport fails) before its 'close' event arrives.
   */
  function Closing(h: Hub, id: Id): (r: Hub)
    requires Valid(h) && id in h.open
    ensures Valid(r)
    ensures r.ids == h.ids && r.alive == h.alive && r.outbox == h.outbox
    ensures r.open.Keys == h.open.Keys && !r.open[id]
    ensures forall k :: k in h.open && k != id ==> r.open[k] == h.open[k]
  {
    h.(open := h.open[id := false])
  }

  /** An inbound frame: replies are appended, the registry and the sockets are untouched. */
  function FrameHandled(h: Hub, id: Id, frame: Option<Json>, now: int): (r: Hub)
    requires Valid(h) && id in h.open && now > 0
    ensures Valid(r)
    ensures r.ids == h.ids && r.alive == h.alive && r.open == h.open
    ensures h.outbox <= r.outbox
    ensures forall e :: e in r.outbox[|h.outbox|..] ==> e.Deliver? && e.to in h.open && h.open[e.to]
  {
    h.(outbox := h.outbox + FrameReplies(h, id, frame, now))
  }

  /**
   * What one heartbeat does to one entry: terminate it if it did not
   * answer the last probe, otherwise probe it (the transport sends a ping
   * only on an open socket).
   */
  function SweepEvent(c: Id, alive: map<Id, bool>, open: map<Id, bool>): (r: seq<Event>)
    requires c in alive && c in open
  {
    if !alive[c] then [Terminate(c)]
    else if open[c] then [Probe(c)]
    else []
  }

  /** One entry gets at most one event: a terminate exactly when silent, a probe exactly when answered and open. */
  lemma SweepEventChoice(c: Id, alive: map<Id, bool>, open: map<Id, bool>)
    requires c in alive && c in open
    ensures var r := SweepEvent(c, alive, open);
      && |r| <= 1
      && (r == [Terminate(c)] <==> !alive[c])
      && (r == [Probe(c)] <==> alive[c] && open[c])
      && (r == [] <==> alive[c] && !open[c])
  {
  }

  /** The events of one heartbeat over `ids`, in order. */
  function SweepEvents(ids: seq<Id>, alive: map<Id, bool>, open: map<Id, bool>): (r: seq<Event>)
    requires forall k :: k in ids ==> k in alive && k in open
  {
    if ids == [] then []
    else
      var last := ids[|ids| - 1];
      SweepEvents(ids[..|ids| - 1], alive, open) + SweepEvent(last, alive, open)
  }

  /** A heartbeat terminates exactly the silent entries and probes exactly the open others. */
  lemma {:induction false} SweepEventsMembers(ids: seq<Id>, alive: map<Id, bool>, open: map<Id, bool>)
    requires forall k :: k in ids ==> k in alive && k in open
    ensures var r := SweepEvents(ids, alive, open);
      && (forall e :: e in r ==> !e.Deliver? && e.to in ids)
      && (forall k :: Terminate(k) in r <==> k in ids && !alive[k])
      && (forall k :: Probe(k) in r <==> k in ids && alive[k] && open[k])
  {
    if ids != [] {
      var init := ids[..|ids| - 1];
      assert forall k :: k in ids <==> k in init || k == ids[|ids| - 1];
      SweepEventsMembers(init, alive, open);
    }
  }

  /**
   * What the heartbeat does to the entry `c` of the current state `p`:
   * nothing if it is no longer registered; if it did not answer the last
   * probe, delete it and terminate its socket; otherwise clear its flag and
   * probe it (the transport sends a ping only on an open socket).
   */
  function SweepOne(p: Hub, c: Id): (r: Hub)
    requires Valid(p)
    ensures Valid(r) && r.open.Keys == p.open.Keys && p.outbox <= r.outbox
  {
    if c !in p.alive then p
    else if !p.alive[c] then
      Hub(Without(p.ids, c), p.alive - {c}, p.open[c := false], p.outbox + [Terminate(c)])
    else
      Hub(p.ids, p.alive[c := false], p.open, p.outbox + (if p.open[c] then [Probe(c)] else []))
  }

  /** The heartbeat's pass over the snapshot `s`, one entry after the other. */
  function SweepOver(h: Hub, s: seq<Id>): (r: Hub)
    requires Valid(h)
    ensures Valid(r) && r.open.Keys == h.open.Keys && h.outbox <= r.outbox
    decreases |s|
  {
    if s == [] then h
    else SweepOne(SweepOver(h, s[..|s| - 1]), s[|s| - 1])
  }

  /** The heartbeat: one pass over a snapshot of the registry's ids. */
  function Swept(h: Hub): (r: Hub)
    requires Valid(h)
    ensures Valid(r) && h.outbox <= r.outbox
  {
    SweepOver(h, h.ids)
  }

  /** The ids of `s` that had not answered the last probe. */
  function DeadIn(s: seq<Id>, alive: map<Id, bool>): set<Id> {
    set k | k in s && k in alive && !alive[k]
  }

  /** `s` lists registered ids, each once. */
  predicate Snapshot(h: Hub, s: seq<Id>) {
    Distinct(s) && forall k :: k in s ==> k in h.alive
  }

  lemma SnapshotInit(h: Hub, s: seq<Id>)
    requires Snapshot(h, s) && s != []
    ensures Snapshot(h, s[..|s| - 1]) && s[|s| - 1] !in s[..|s| - 1]
    ensures forall k :: k in s <==> k in s[..|s| - 1] || k == s[|s| - 1]
  {
    assert s == s[..|s| - 1] + [s[|s| - 1]];
  }

  /**
   * After the pass over `s`, the registry holds every entry outside `s`
   * unchanged, and those of `s` that had answered, now with their flag clear.
   */
  lemma {:induction false} SweepOverAlive(h: Hub, s: seq<Id>)
    requires Valid(h) && Snapshot(h, s)
    ensures var r := SweepOver(h, s);
      && (forall k :: k in r.alive <==> k in h.alive && (k in s ==> h.alive[k]))
      && (forall k :: k in r.alive ==> r.alive[k] == (k !in s && h.alive[k]))
    decreases |s|
  {
    if s != [] {
      var init, c := s[..|s| - 1], s[|s| - 1];
      SnapshotInit(h, s);
      SweepOverAlive(h, init);
      var p := SweepOver(h, init);
      assert SweepOver(h, s).alive
          == if c !in p.alive then p.alive else if !p.alive[c] then p.alive - {c} else p.alive[c := false];
    }
  }

  /** After the pass over `s`, exactly the sockets of the evicted entries have left the OPEN state. */
  lemma {:induction false} SweepOverOpen(h: Hub, s: seq<Id>)
    requires Valid(h) && Snapshot(h, s)
    ensures var r := SweepOver(h, s);
      forall k :: k in r.open ==> r.open[k] == (h.open[k] && k !in DeadIn(s, h.alive))
    decreases |s|
  {
    if s != [] {
      var init, c := s[..|s| - 1], s[|s| - 1];
      SnapshotInit(h, s);
      SweepOverAlive(h, init);
      SweepOverOpen(h, init);
      DeadInLast(s, h.alive);
      var p := SweepOver(h, init);
      assert c in p.alive && p.alive[c] == h.alive[c];
      assert SweepOver(h, s).open == if h.alive[c] then p.open else p.open[c := false];
    }
  }

  /** What one step of the pass does to the registry's order. */
  lemma SweepOneIds(p: Hub, c: Id)
    requires Valid(p)
    ensures SweepOne(p, c).ids == if c in p.alive && !p.alive[c] then Without(p.ids, c) else p.ids
  {
  }

  /** The silent ids of a snapshot are those of its prefix and, if silent, its last id. */
  lemma DeadInLast(s: seq<Id>, alive: map<Id, bool>)
    requires s != [] && s[|s| - 1] in alive
    ensures DeadIn(s, alive)
         == DeadIn(s[..|s| - 1], alive) + (if alive[s[|s| - 1]] then {} else {s[|s| - 1]})
  {
    assert forall k :: k in s <==> k in s[..|s| - 1] || k == s[|s| - 1] by {
      assert s == s[..|s| - 1] + [s[|s| - 1]];
    }
  }

  /** After the pass over `s`, the registry's order is the old one without the evicted entries. */
  lemma {:induction false} SweepOverIds(h: Hub, s: seq<Id>)
    requires Valid(h) && Snapshot(h, s)
    ensures SweepOver(h, s).ids == Purge(h.ids, DeadIn(s, h.alive))
    decreases |s|
  {
    if s == [] {
      assert DeadIn(s, h.alive) == {};
      PurgeNone(h.ids);
    } else {
      var init, c := s[..|s| - 1], s[|s| - 1];
      SnapshotInit(h, s);
      SweepOverAlive(h, init);
      SweepOverIds(h, init);
      var p := SweepOver(h, init);
      assert SweepOver(h, s) == SweepOne(p, c);
      SweepOneIds(p, c);
      DeadInLast(s, h.alive);
      var dead := DeadIn(init, h.alive);
      if h.alive[c] {
        assert DeadIn(s, h.alive) == dead;
        assert SweepOver(h, s).ids == p.ids;
      } else {
        assert DeadIn(s, h.alive) == dead + {c};
        assert SweepOver(h, s).ids == Without(p.ids, c);
        PurgeMore(h.ids, dead, c);
      }
    }
  }

  /** An entry outside `s` is untouched by the pass over `s`. */
  lemma SweepOverUntouched(h: Hub, s: seq<Id>, c: Id)
    requires Valid(h) && Snapshot(h, s) && c in h.alive && c !in s
    ensures var r := SweepOver(h, s);
      c in r.alive && r.alive[c] == h.alive[c] && c in r.open && r.open[c] == h.open[c]
  {
    SweepOverAlive(h, s);
    SweepOverOpen(h, s);
  }

  /** The pass over `s` sends, in order, one terminate or probe per entry of `s`. */
  lemma {:induction false} SweepOverLog(h: Hub, s: seq<Id>)
    requires Valid(h) && Snapshot(h, s)
    ensures SweepOver(h, s).outbox == h.outbox + SweepEvents(s, h.alive, h.open)
    decreases |s|
  {
    if s != [] {
      var init, c := s[..|s| - 1], s[|s| - 1];
      SnapshotInit(h, s);
      SweepOverUntouched(h, init, c);
      SweepOverLog(h, init);
      var p := SweepOver(h, init);
      assert SweepOver(h, s) == SweepOne(p, c);
      SweepOneLog(p, c, h.alive, h.open);
      assert SweepEvents(s, h.alive, h.open) == SweepEvents(init, h.alive, h.open) + SweepEvent(c, h.alive, h.open);
    }
  }

  /** One entry's step logs that entry's event, judged by its flag and socket state. */
  lemma SweepOneLog(p: Hub, c: Id, alive: map<Id, bool>, open: map<Id, bool>)
    requires Valid(p) && c in p.alive && c in p.open && c in alive && c in open
    requires p.alive[c] == alive[c] && p.open[c] == open[c]
    ensures SweepOne(p, c).outbox == p.outbox + SweepEvent(c, alive, open)
  {
  }

  /**
   * Every entry not alive before the sweep is removed and terminated; every
   * entry alive before stays, in its place, is now not alive, and is probed
   * if its socket is open; nothing is delivered.
   */
  lemma SweepEvicts(h: Hub)
    requires Valid(h)
    ensures var r := Swept(h);
      && r.ids == Survivors(h.ids, h.alive)
      && (forall k :: k in r.alive <==> k in h.alive && h.alive[k])
      && (forall k :: k in r.alive ==> !r.alive[k])
      && r.open.Keys == h.open.Keys
      && (forall k :: k in r.open ==> r.open[k] == (h.open[k] && !(k in h.alive && !h.alive[k])))
      && r.outbox == h.outbox + SweepEvents(h.ids, h.alive, h.open)
  {
    assert Snapshot(h, h.ids);
    SweepOverAlive(h, h.ids);
    SweepOverOpen(h, h.ids);
    SweepOverIds(h, h.ids);
    SweepOverLog(h, h.ids);
    PurgeDead(h.ids, h.alive, DeadIn(h.ids, h.alive));
  }

  /** The events of a heartbeat: a terminate for each silent entry, a probe for each other open one. */
  lemma SweepEventsOf(h: Hub)
    requires Valid(h)
    ensures var sent := Swept(h).outbox[|h.outbox|..];
      && (forall k :: Terminate(k) in sent <==> k in h.alive && !h.alive[k])
      && (forall k :: Probe(k) in sent <==> k in h.alive && h.alive[k] && h.open[k])
      && (forall e :: e in sent ==> !e.Deliver?)
  {
    SweepEvicts(h);
    SweepEventsMembers(h.ids, h.alive, h.open);
    assert Swept(h).outbox[|h.outbox|..] == SweepEvents(h.ids, h.alive, h.open);
  }

  /**
   * A client the heartbeat evicted gets no reply to any later frame: its
   * socket was terminated, so even the error reply finds it not open.
   */
  lemma EvictedGetsNoReply(h: Hub, id: Id, frame: Option<Json>, now: int)
    requires Valid(h) && id in h.alive && !h.alive[id] && now > 0
    ensures id in Swept(h).open && FrameReplies(Swept(h), id, frame, now) == []
  {
    SweepEvicts(h);
  }

  /** With no pong in between, two heartbeats in a row empty the registry. */
  lemma TwoSweepsEmpty(h: Hub)
    requires Valid(h)
    ensures Swept(Swept(h)).alive == map[]
    ensures Swept(Swept(h)).ids == []
  {
    SweepEvicts(h);
    SweepEvicts(Swept(h));
    var r := Swept(Swept(h));
    assert r.alive.Keys == {};
    CountMatchesIds(r);
  }

  /** The events the service reacts to. */
  datatype Input =
    | Connection(id: Id, now: int)
    | Data(id: Id, frame: Option<Json>, now: int)
    | PongFrame(id: Id)
    | ClosingHandshake(id: Id)
    | Disconnect(id: Id)
    | Tick

  /**
   * When an event can happen: a new connection gets a fresh UUID; frames,
   * pongs and closes come from a socket that was accepted; the clock is
   * positive.
   */
  predicate Enabled(h: Hub, e: Input) {
    match e
    case Connection(id, now) => IsUuid(id) && id !in h.open && now > 0
    case Data(id, _, now) => id in h.open && now > 0
    case PongFrame(id) => id in h.open
    case ClosingHandshake(id) => id in h.open
    case Disconnect(id) => id in h.open
    case Tick => true
  }

  /** The service's reaction to one event. Accepted sockets are never forgotten. */
  function Step(h: Hub, e: Input): (r: Hub)
    requires Valid(h) && Enabled(h, e)
    ensures Valid(r) && h.open.Keys <= r.open.Keys
  {
    match e
    case Connection(id, now) => Connected(h, id, now)
    case Data(id, frame, now) => FrameHandled(h, id, frame, now)
    case PongFrame(id) => Revived(h, id)
    case ClosingHandshake(id) => Closing(h, id)
    case Disconnect(id) => Closed(h, id)
    case Tick => Swept(h)
  }

  /**
   * Whatever the event, the outbox only grows, and every message and probe
   * it adds goes to a socket that is open afterwards: nothing is ever sent
   * on a socket that is not open.
   */
  lemma StepSendsOnlyOnOpen(h: Hub, e: Input)
    requires Valid(h) && Enabled(h, e)
    ensures var r := Step(h, e);
      && h.outbox <= r.outbox
      && (forall ev :: ev in r.outbox[|h.outbox|..] && !ev.Terminate? ==> ev.to in r.open && r.open[ev.to])
  {
    match e
    case Tick =>
      SweepEvicts(h);
      SweepEventsOf(h);
    case _ =>
  }

  /** Every event of `steps` can happen in turn, starting from `h`. */
  predicate Admissible(h: Hub, steps: seq<Input>)
    requires Valid(h)
    decreases |steps|
  {
    steps == [] || (Enabled(h, steps[0]) && Admissible(Step(h, steps[0]), steps[1..]))
  }

  /** The state after reacting to `steps` in order. */
  function Run(h: Hub, steps: seq<Input>): (r: Hub)
    requires Valid(h) && Admissible(h, steps)
    ensures Valid(r) && h.open.Keys <= r.open.Keys
    decreases |steps|
  {
    if steps == [] then h else Run(Step(h, steps[0]), steps[1..])
  }

  /** `id` was accepted, and is either gone or waiting for an answer to a probe. */
  predicate Quiet(h: Hub, id: Id) {
    id in h.open && (id in h.alive ==> !h.alive[id])
  }

  /** Only a pong from `id` itself can set its flag again. */
  lemma StepKeepsQuiet(h: Hub, e: Input, id: Id)
    requires Valid(h) && Enabled(h, e) && Quiet(h, id) && e != PongFrame(id)
    ensures Quiet(Step(h, e), id)
  {
    match e
    case Tick => SweepEvicts(h);
    case _ =>
  }

  lemma {:induction false} RunKeepsQuiet(h: Hub, steps: seq<Input>, id: Id)
    requires Valid(h) && Admissible(h, steps) && Quiet(h, id)
    requires PongFrame(id) !in steps
    ensures Quiet(Run(h, steps), id)
    decreases |steps|
  {
    if steps != [] {
      StepKeepsQuiet(h, steps[0], id);
      assert PongFrame(id) !in steps[1..];
      RunKeepsQuiet(Step(h, steps[0]), steps[1..], id);
    }
  }

  /**
   * A client that answers no probe between two heartbeats is gone after
   * the second, whatever else happens in between.
   */
  lemma {:induction false} SilentClientEvicted(h: Hub, steps: seq<Input>, id: Id)
    requires Valid(h) && id in h.open
    requires Admissible(Swept(h), steps) && PongFrame(id) !in steps
    ensures id !in Swept(Run(Swept(h), steps)).alive
  {
    SweepEvicts(h);
    assert Quiet(Swept(h), id);
    RunKeepsQuiet(Swept(h), steps, id);
    SweepEvicts(Run(Swept(h), steps));
  }

  /** Before the next heartbeat, only its own close can take a registered client out. */
  lemma StepKeepsAnswered(h: Hub, e: Input, id: Id)
    requires Valid(h) && Enabled(h, e) && id in h.alive && h.alive[id]
    requires e != Disconnect(id) && !e.Tick?
    ensures id in Step(h, e).alive && Step(h, e).alive[id]
  {
  }

  lemma {:induction false} RunKeepsAnswered(h: Hub, steps: seq<Input>, id: Id)
    requires Valid(h) && Admissible(h, steps) && id in h.alive && h.alive[id]
    requires Disconnect(id) !in steps && Tick !in steps
    ensures id in Run(h, steps).alive && Run(h, steps).alive[id]
    decreases |steps|
  {
    if steps != [] {
      assert steps[0] != Disconnect(id) && !steps[0].Tick?;
      StepKeepsAnswered(h, steps[0], id);
      assert Disconnect(id) !in steps[1..] && Tick !in steps[1..];
      RunKeepsAnswered(Step(h, steps[0]), steps[1..], id);
    }
  }

  /**
   * A registered client that answers the probe survives the next heartbeat,
   * whatever happens between its pong and the heartbeat, short of its own
   * close.
   */
  lemma AnsweringClientStays(h: Hub, id: Id, steps: seq<Input>)
    requires Valid(h) && id in h.alive
    requires Admissible(Revived(h, id), steps) && Disconnect(id) !in steps && Tick !in steps
    ensures id in Swept(Run(Revived(h, id), steps)).alive
  {
    RunKeepsAnswered(Revived(h, id), steps, id);
    SweepEvicts(Run(Revived(h, id), steps));
  }

}
