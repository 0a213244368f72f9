/**
 The event bus of the race server: a set of listeners per drone, the
 `on` registration with its unsubscribe handle, and `emit`.

 A listener is an opaque callback; the model names each registration by a
 fresh token and records, per token, the events the callback was invoked
 with. A callback that throws is caught by `emit` and does not stop the
 delivery to the others, so delivery here never fails and reaches every
 registered listener. `published` keeps, per drone, every event emitted
 so far; it is the observable history the other properties talk about.
 */
module EventBus {
  import opened Common

  type Token = nat

  datatype Bus = Bus(
    listeners: map<Token, string>,
    received: map<Token, seq<DroneEvent>>,
    published: map<string, seq<DroneEvent>>,
    nextToken: Token)

  /** One empty listener set per known drone. */
  function Empty(ids: set<string>): (b: Bus)
    ensures Valid(b) && b.published.Keys == ids
    ensures b.listeners == map[] && b.received == map[]
    ensures forall id :: id in ids ==> b.published[id] == []
  {
    Bus(map[], map[], map id | id in ids :: [], 0)
  }

  /** Tokens are fresh, and every listener listens to a known drone. */
  predicate Valid(b: Bus) {
    && b.listeners.Keys <= b.received.Keys
    && (forall t :: t in b.received ==> t < b.nextToken)
    && (forall t :: t in b.listeners ==> b.listeners[t] in b.published)
  }

  predicate Listening(b: Bus, t: Token, id: string) {
    t in b.listeners && b.listeners[t] == id
  }

  /**
   `on(id, cb)`: registers a new callback for `id` and returns the token
   its unsubscribe handle removes; unknown ids fail with `NotFound`.
   */
  function On(b: Bus, id: string): (r: Result<(Bus, Token)>)
    requires Valid(b)
    ensures r.Failure? <==> id !in b.published
    ensures r.Failure? ==> r.error == NotFound(id)
    ensures r.Success? ==>
      var (b', t) := r.value;
      && Valid(b')
      && t !in b.received
      && Listening(b', t, id)
      && b'.received[t] == []
      && b'.published == b.published
      && b'.listeners.Keys == b.listeners.Keys + {t}
      && (forall u :: u in b.listeners ==> b'.listeners[u] == b.listeners[u])
      && (forall u :: u in b.received ==> u in b'.received && b'.received[u] == b.received[u])
  {
    if id !in b.published then Failure(NotFound(id))
    else
      var t := b.nextToken;
      Success((Bus(b.listeners[t := id], b.received[t := []], b.published, t + 1), t))
  }

  /** The handle returned by `on`: removes that one callback and nothing else. */
  function Off(b: Bus, t: Token): (b': Bus)
    requires Valid(b)
    ensures Valid(b')
    ensures t !in b'.listeners
    ensures b'.listeners.Keys == b.listeners.Keys - {t}
    ensures forall u :: u in b'.listeners ==> b'.listeners[u] == b.listeners[u]
    ensures b'.received == b.received && b'.published == b.published
  {
    b.(listeners := b.listeners - {t})
  }

  /**
   `emit(id, payload)`: every callback registered for `id` is invoked with
   the payload; other callbacks are not. Unknown ids are ignored.
   */
  function Emit(b: Bus, id: string, e: DroneEvent): (b': Bus)
    requires Valid(b)
    ensures Valid(b')
    ensures id !in b.published ==> b' == b
    ensures id in b.published ==> b'.published == b.published[id := b.published[id] + [e]]
    ensures b'.listeners == b.listeners && b'.nextToken == b.nextToken
    ensures b'.received.Keys == b.received.Keys
    ensures forall t :: t in b.received ==>
      b'.received[t] == (if Listening(b, t, id) then b.received[t] + [e] else b.received[t])
  {
    if id !in b.published then b
    else
      Bus(
        b.listeners,
        map t | t in b.received :: if Listening(b, t, id) then b.received[t] + [e] else b.received[t],
        b.published[id := b.published[id] + [e]],
        b.nextToken)
  }

  /** A message pushed straight to one subscriber, outside the bus (the stream's snapshot). */
  function Deliver(b: Bus, t: Token, e: DroneEvent): (b': Bus)
    requires Valid(b) && t in b.received
    ensures Valid(b')
    ensures t in b'.received && b'.received[t] == b.received[t] + [e]
    ensures forall u :: u in b.received && u != t ==> u in b'.received && b'.received[u] == b.received[u]
    ensures b'.listeners == b.listeners && b'.published == b.published
  {
    b.(received := b.received[t := b.received[t] + [e]])
  }

  /** Once its handle has run, a callback receives nothing from any later emit. */
  lemma SilentAfterOff(b: Bus, t: Token, id: string, e: DroneEvent)
    requires Valid(b) && t in b.received
    ensures Emit(Off(b, t), id, e).received[t] == b.received[t]
  {
  }

  /** Removing a callback twice is the same as removing it once. */
  lemma OffIdempotent(b: Bus, t: Token)
    requires Valid(b)
    ensures Off(Off(b, t), t) == Off(b, t)
  {
  }

  /** Removing one callback leaves every other registration in place. */
  lemma OffOnlyThatCallback(b: Bus, t: Token, u: Token, id: string)
    requires Valid(b) && u != t && Listening(b, u, id)
    ensures Listening(Off(b, t), u, id)
  {
  }
}
