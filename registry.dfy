/**
 * The observable state of the chat service: the client registry (a map from
 * id to its liveness flag, kept in insertion order as a JavaScript `Map`
 * is), the state of each accepted socket, and the log of what was put on
 * the wire.
 */
module Registry {
  import opened Wrappers
  import opened Protocol

  /** What the service puts on a connection: a message, a liveness probe, or a forced close. */
  datatype Event = Deliver(to: Id, msg: Message) | Probe(to: Id) | Terminate(to: Id)

  /**
   * `ids`: the registry's keys in insertion order; `alive`: the registry,
   * id to `isAlive`; `open`: for every socket accepted so far, keyed by the
   * id it was given, whether it is in the OPEN state; `outbox`: every event
   * sent so far, oldest first.
   */
  datatype Hub = Hub(ids: seq<Id>, alive: map<Id, bool>, open: map<Id, bool>, outbox: seq<Event>)

  predicate Distinct(s: seq<Id>) {
    forall i, j :: 0 <= i < j < |s| ==> s[i] != s[j]
  }

  /**
   * The registry invariant: `ids` lists each registered id once, every
   * registered id has a socket, every socket's id is a UUID, and every
   * message sent so far satisfies the message schema.
   */
  predicate Valid(h: Hub) {
    && Distinct(h.ids)
    && (forall k :: k in h.ids ==> k in h.alive)
    && (forall k :: k in h.alive ==> k in h.ids)
    && (forall k :: k in h.alive ==> k in h.open)
    && (forall k :: k in h.open ==> IsUuid(k))
    && (forall e :: e in h.outbox && e.Deliver? ==> WellFormed(e.msg))
  }

  /** The empty service: nothing registered, nothing accepted, nothing sent. */
  const Empty: Hub := Hub([], map[], map[], [])

  /** `s` with `x` removed, as `Map.delete` removes a key. */
  function Without(s: seq<Id>, x: Id): (r: seq<Id>)
    ensures forall y :: y in r <==> y in s && y != x
    ensures Distinct(s) ==> Distinct(r)
  {
    if s == [] then []
    else
      assert Distinct(s) ==> Distinct(s[1..]) && s[0] !in s[1..];
      (if s[0] == x then [] else [s[0]]) + Without(s[1..], x)
  }

  /** Removing an id that is not there changes nothing. */
  lemma {:induction false} WithoutAbsent(s: seq<Id>, x: Id)
    requires x !in s
    ensures Without(s, x) == s
  {
    if s != [] {
      WithoutAbsent(s[1..], x);
    }
  }

  lemma {:induction false} WithoutAppend(a: seq<Id>, b: seq<Id>, x: Id)
    ensures Without(a + b, x) == Without(a, x) + Without(b, x)
  {
    if a != [] {
      assert (a + b)[0] == a[0];
      assert (a + b)[1..] == a[1..] + b;
      WithoutAppend(a[1..], b, x);
    } else {
      assert a + b == b;
    }
  }

  /** The ids of `s` whose liveness flag is set, in order (the entries a heartbeat keeps). */
  function Survivors(s: seq<Id>, alive: map<Id, bool>): (r: seq<Id>)
    requires forall k :: k in s ==> k in alive
    ensures forall y :: y in r <==> y in s && alive[y]
    ensures Distinct(s) ==> Distinct(r)
  {
    if s == [] then []
    else
      assert Distinct(s) ==> Distinct(s[1..]) && s[0] !in s[1..];
      (if alive[s[0]] then [s[0]] else []) + Survivors(s[1..], alive)
  }

  /** `s` without the ids of `dead`, in order. */
  function Purge(s: seq<Id>, dead: set<Id>): (r: seq<Id>)
    ensures forall y :: y in r <==> y in s && y !in dead
  {
    if s == [] then []
    else (if s[0] in dead then [] else [s[0]]) + Purge(s[1..], dead)
  }

  lemma {:induction false} PurgeNone(s: seq<Id>)
    ensures Purge(s, {}) == s
  {
    if s != [] {
      PurgeNone(s[1..]);
    }
  }

  /** Purging one more id is removing it from what was left. */
  lemma {:induction false} PurgeMore(s: seq<Id>, dead: set<Id>, x: Id)
    ensures Purge(s, dead + {x}) == Without(Purge(s, dead), x)
  {
    if s != [] {
      PurgeMore(s[1..], dead, x);
      var head := if s[0] in dead then [] else [s[0]];
      WithoutAppend(head, Purge(s[1..], dead), x);
      assert [s[0]][1..] == [];
    }
  }

  /** Purging exactly the ids whose flag is clear keeps the survivors. */
  lemma {:induction false} PurgeDead(s: seq<Id>, alive: map<Id, bool>, dead: set<Id>)
    requires forall k :: k in s ==> k in alive && (k in dead <==> !alive[k])
    ensures Purge(s, dead) == Survivors(s, alive)
  {
    if s != [] {
      PurgeDead(s[1..], alive, dead);
    }
  }

  /** A list without repetitions has as many elements as the set of them. */
  lemma {:induction false} DistinctCard(s: seq<Id>)
    requires Distinct(s)
    ensures |set x | x in s| == |s|
  {
    if s != [] {
      var t := s[1..];
      DistinctCard(t);
      assert (set x | x in s) == (set x | x in t) + {s[0]};
      assert s[0] !in t;
    }
  }

  /** The number of registered clients equals the length of the id list. */
  lemma CountMatchesIds(h: Hub)
    requires Valid(h)
    ensures |h.alive| == |h.ids|
  {
    DistinctCard(h.ids);
    assert h.alive.Keys == set x | x in h.ids;
  }

  /** No registered id is the name the server signs its own messages with. */
  lemma ServerIsNotAClient(h: Hub)
    requires Valid(h)
    ensures "server" !in h.alive && "server" !in h.open
  {
  }
}
