/** The event bus of the server: two bounded FIFO queues between the server and
    the game, a per-instance event-id counter, a deterministic overflow policy
    and an append-only registry of handlers that every dequeued event is
    dispatched to, in registration order, with each handler's failure isolated.

    The asyncio worker loops are modelled as one deterministic step each
    (`ProducerStep`, `ConsumerStep`); the transport backend is a small class
    holding its connectivity flag and a ghost record of what it was handed. */
module Bus {
  import opened Wrappers

  /** `queue_overflow` of the configuration. */
  datatype Overflow = DropNewest | DropOldest

  /** An event: its id and an opaque payload. */
  datatype Event = Event(eventId: int, payload: string)

  /** The part of `EventBus.Config` the bus itself reads. */
  datatype Config = Config(producers: int, consumers: int, queueMaxSize: int, queueOverflow: Overflow)

  /** Handlers are only ever compared by position in the registry. */
  type HandlerId = nat

  /** Which of the two queues an enqueue attempt targets. */
  datatype Direction = Outgoing | Incoming

  /** What the bus makes happen outside itself: a hand-off to the backend, or
      one awaited handler call, together with whether that call raised. */
  datatype Effect = Published(event: Event) | Invoked(handler: HandlerId, event: Event, failed: bool)

  // ---------------------------------------------------------------------
  // asyncio.Queue, as the bus uses it

  /** `Queue.full()`: a `maxsize` of zero or less means unbounded. */
  predicate Full(q: seq<Event>, maxsize: int) {
    0 < maxsize <= |q|
  }

  /** `Queue.put_nowait`: `None` stands for `QueueFull`. */
  function PutNowait(q: seq<Event>, e: Event, maxsize: int): Option<seq<Event>> {
    if Full(q, maxsize) then None else Some(q + [e])
  }

  /** `Queue.get_nowait`: `None` stands for `QueueEmpty`. */
  function GetNowait(q: seq<Event>): Option<(Event, seq<Event>)> {
    if |q| == 0 then None else Some((q[0], q[1..]))
  }

  /** The length bound every queue keeps once an enqueue attempt resolves. */
  ghost predicate Bounded(q: seq<Event>, maxsize: int) {
    maxsize > 0 ==> |q| <= maxsize
  }

  // ---------------------------------------------------------------------
  // The overflow policy as a specification

  /** The queue after one enqueue attempt: appended at the tail when there is
      room; on a full queue, unchanged under drop_newest, and shifted by one
      under drop_oldest. */
  function Offer(q: seq<Event>, e: Event, maxsize: int, policy: Overflow): seq<Event> {
    if !Full(q, maxsize) then q + [e]
    else if policy == DropOldest then q[1..] + [e]
    else q
  }

  /** The queue after a series of enqueue attempts, with no dequeue between. */
  function OfferAll(q: seq<Event>, es: seq<Event>, maxsize: int, policy: Overflow): seq<Event>
    decreases |es|
  {
    if es == [] then q else OfferAll(Offer(q, es[0], maxsize, policy), es[1..], maxsize, policy)
  }

  /** The last `n` elements of `s` (all of it when it is shorter). */
  function Newest(s: seq<Event>, n: nat): (r: seq<Event>)
    ensures |r| <= n && |r| <= |s| && (|r| == n || |r| == |s|)
    ensures r == s[|s| - |r|..]
  {
    if |s| <= n then s else s[|s| - n..]
  }

  /** The first `n` elements of `s` (all of it when it is shorter). */
  function Oldest(s: seq<Event>, n: nat): (r: seq<Event>)
    ensures |r| <= n && |r| <= |s| && (|r| == n || |r| == |s|)
    ensures r == s[..|r|]
  {
    if |s| <= n then s else s[..n]
  }

  /** One enqueue attempt never leaves a bounded queue over its bound, and
      what it leaves is either the queue unchanged, the event appended, or the
      head dropped and the event appended. */
  lemma OfferResolves(q: seq<Event>, e: Event, maxsize: int, policy: Overflow)
    requires Bounded(q, maxsize)
    ensures Bounded(Offer(q, e, maxsize, policy), maxsize)
    ensures var r := Offer(q, e, maxsize, policy);
      || (r == q + [e] && !Full(q, maxsize))
      || (r == q && Full(q, maxsize) && policy == DropNewest)
      || (r == q[1..] + [e] && Full(q, maxsize) && policy == DropOldest && |r| == |q|)
  {
  }

  lemma AppendHead(q: seq<Event>, es: seq<Event>)
    requires es != []
    ensures q + [es[0]] + es[1..] == q + es
  {
    assert [es[0]] + es[1..] == es;
  }

  /** On an unbounded queue every event offered is kept, in order. */
  lemma {:induction false} OfferAllUnbounded(q: seq<Event>, es: seq<Event>, maxsize: int, policy: Overflow)
    requires maxsize <= 0
    ensures OfferAll(q, es, maxsize, policy) == q + es
    decreases |es|
  {
    if es != [] {
      OfferAllUnbounded(q + [es[0]], es[1..], maxsize, policy);
      AppendHead(q, es);
    }
  }

  lemma NewestOfNewest(s: seq<Event>, t: seq<Event>, n: nat)
    ensures Newest(Newest(s, n) + t, n) == Newest(s + t, n)
  {
    if |s| > n {
      var u, w := s[|s| - n..] + t, s + t;
      forall x | 0 <= x < |u| ensures u[x] == w[|s| - n + x] {
      }
      assert u[|u| - n..] == w[|w| - n..];
    }
  }

  /** One drop_oldest enqueue onto a queue within its bound keeps the newest
      `maxsize` events. */
  lemma OfferDropOldestKeepsNewest(q: seq<Event>, e: Event, maxsize: int)
    requires 0 < maxsize && |q| <= maxsize
    ensures Offer(q, e, maxsize, DropOldest) == Newest(q + [e], maxsize)
  {
    if |q| == maxsize {
      assert q[1..] + [e] == (q + [e])[1..];
    }
  }

  lemma OldestOfOldest(s: seq<Event>, t: seq<Event>, n: nat)
    ensures Oldest(Oldest(s, n) + t, n) == Oldest(s + t, n)
  {
    if |s| > n {
      assert (s[..n] + t)[..n] == (s + t)[..n];
    }
  }

  /** Under drop_oldest a bounded queue keeps the newest `maxsize` of
      everything that was in it or offered to it. */
  lemma {:induction false} OfferAllDropOldest(q: seq<Event>, es: seq<Event>, maxsize: int)
    requires 0 < maxsize && |q| <= maxsize
    ensures OfferAll(q, es, maxsize, DropOldest) == Newest(q + es, maxsize)
    decreases |es|
  {
    if es == [] {
      assert q + es == q;
    } else {
      var q' := Offer(q, es[0], maxsize, DropOldest);
      OfferDropOldestKeepsNewest(q, es[0], maxsize);
      OfferAllDropOldest(q', es[1..], maxsize);
      NewestOfNewest(q + [es[0]], es[1..], maxsize);
      AppendHead(q, es);
    }
  }

  /** Under drop_newest a bounded queue keeps the oldest `maxsize` of
      everything that was in it or offered to it. */
  lemma {:induction false} OfferAllDropNewest(q: seq<Event>, es: seq<Event>, maxsize: int)
    requires 0 < maxsize && |q| <= maxsize
    ensures OfferAll(q, es, maxsize, DropNewest) == Oldest(q + es, maxsize)
    decreases |es|
  {
    if es == [] {
      assert q + es == q;
    } else {
      var q' := Offer(q, es[0], maxsize, DropNewest);
      assert q' == Oldest(q + [es[0]], maxsize);
      OfferAllDropNewest(q', es[1..], maxsize);
      OldestOfOldest(q + [es[0]], es[1..], maxsize);
      AppendHead(q, es);
    }
  }

  /** Ids of the events in a queue increase from head to tail. */
  ghost predicate IdsIncreasing(q: seq<Event>) {
    forall i, j :: 0 <= i < j < |q| ==> q[i].eventId < q[j].eventId
  }

  /** Offering an event whose id is above every id already queued keeps the
      queue's ids increasing, whatever the policy. */
  lemma OfferKeepsIdsIncreasing(q: seq<Event>, e: Event, maxsize: int, policy: Overflow)
    requires IdsIncreasing(q)
    requires forall i :: 0 <= i < |q| ==> q[i].eventId < e.eventId
    ensures IdsIncreasing(Offer(q, e, maxsize, policy))
  {
    var r := Offer(q, e, maxsize, policy);
    if Full(q, maxsize) && policy == DropOldest {
      forall i, j | 0 <= i < j < |r| ensures r[i].eventId < r[j].eventId {
        if j == |r| - 1 {
          assert r[i] == q[i + 1] && r[j] == e;
        } else {
          assert r[i] == q[i + 1] && r[j] == q[j + 1];
        }
      }
    }
  }

  // ---------------------------------------------------------------------
  // Handler dispatch as a specification

  /** The handler calls one event causes: one per registered handler, in
      registration order, whether or not earlier ones raised. */
  function Dispatch(handlers: seq<HandlerId>, e: Event, fails: (HandlerId, Event) -> bool): seq<Effect>
    decreases |handlers|
  {
    if handlers == [] then []
    else Dispatch(handlers[..|handlers| - 1], e, fails) + [Invoked(handlers[|handlers| - 1], e, fails(handlers[|handlers| - 1], e))]
  }

  /** Every registered handler is invoked with the event, the k-th call going
      to the k-th handler; a handler that raised does not stop the next one. */
  lemma {:induction false} DispatchInvokesEveryHandler(handlers: seq<HandlerId>, e: Event, fails: (HandlerId, Event) -> bool)
    ensures |Dispatch(handlers, e, fails)| == |handlers|
    ensures forall k :: 0 <= k < |handlers| ==>
      Dispatch(handlers, e, fails)[k] == Invoked(handlers[k], e, fails(handlers[k], e))
    decreases |handlers|
  {
    if handlers != [] {
      DispatchInvokesEveryHandler(handlers[..|handlers| - 1], e, fails);
    }
  }

  // ---------------------------------------------------------------------
  // The transport backend, reduced to what the bus relies on

  class Backend {
    /** Whether the game is currently connected; changed by the transport. */
    var connected: bool
    /** Every event handed to `publish_event_to_game`, in order. */
    ghost var sent: seq<Event>

    constructor (connected: bool)
      ensures this.connected == connected && sent == []
    {
      this.connected := connected;
      sent := [];
    }

    method IsConnectedToGame() returns (b: bool)
      ensures b == connected
    {
      b := connected;
    }

    method PublishEventToGame(e: Event)
      modifies this`sent
      ensures sent == old(sent) + [e]
    {
      sent := sent + [e];
    }
  }

  // ---------------------------------------------------------------------
  // The bus

  class EventBus {
    const config: Config
    const backend: Backend
    /** `_next_event_id`: the id the next produced event receives. */
    var nextEventId: int
    /** `_events_to_produce_to_game`, head first. */
    var outgoing: seq<Event>
    /** `_events_consumed_from_game`, head first. */
    var incoming: seq<Event>
    /** `_handlers`, in registration order. */
    var handlers: seq<HandlerId>
    /** Backend hand-offs and handler calls the workers made, in order. */
    ghost var trace: seq<Effect>

    ghost predicate Valid()
      reads this
    {
      && nextEventId >= 1
      && Bounded(outgoing, config.queueMaxSize)
      && Bounded(incoming, config.queueMaxSize)
      && IdsIncreasing(outgoing)
      && (forall i :: 0 <= i < |outgoing| ==> 1 <= outgoing[i].eventId < nextEventId)
    }

    constructor (config: Config, backend: Backend)
      ensures Valid()
      ensures this.config == config && this.backend == backend
      ensures nextEventId == 1 && outgoing == [] && incoming == [] && handlers == [] && trace == []
    {
      this.config := config;
      this.backend := backend;
      nextEventId := 1;
      outgoing, incoming := [], [];
      handlers := [];
      trace := [];
    }

    function Queue(dir: Direction): seq<Event>
      reads this
    {
      if dir == Outgoing then outgoing else incoming
    }

    method SetQueue(dir: Direction, q: seq<Event>)
      modifies this`outgoing, this`incoming
      ensures Queue(dir) == q
      ensures dir == Outgoing ==> incoming == old(incoming)
      ensures dir == Incoming ==> outgoing == old(outgoing)
    {
      if dir == Outgoing { outgoing := q; } else { incoming := q; }
    }

    /** `is_connected_to_game`: the backend's flag as it is now. */
    method IsConnectedToGame() returns (b: bool)
      ensures b == backend.connected
    {
      b := backend.IsConnectedToGame();
    }

    /** `register_handler`: append only. */
    method RegisterHandler(h: HandlerId)
      requires Valid()
      modifies this`handlers
      ensures Valid()
      ensures handlers == old(handlers) + [h]
    {
      handlers := handlers + [h];
    }

    /** `_handle_queue_full`, called only after `put_nowait` raised. The two
        branches that log a race are proved unreachable: nothing runs between
        the failed put and the get/put that follow it. */
    method HandleQueueFull(dir: Direction, event: Event)
      requires Full(Queue(dir), config.queueMaxSize)
      requires Bounded(Queue(dir), config.queueMaxSize)
      modifies this`outgoing, this`incoming
      ensures Queue(dir) == Offer(old(Queue(dir)), event, config.queueMaxSize, config.queueOverflow)
      ensures dir == Outgoing ==> incoming == old(incoming)
      ensures dir == Incoming ==> outgoing == old(outgoing)
    {
      if config.queueOverflow == DropOldest {
        var got := GetNowait(Queue(dir));
        if got.None? {
          // "queue was full but now empty"
          assert false;
          return;
        }
        SetQueue(dir, got.value.1);
        var put := PutNowait(Queue(dir), event, config.queueMaxSize);
        if put.None? {
          // "queue is still full"
          assert false;
          return;
        }
        SetQueue(dir, put.value);
      }
    }

    /** `produce_event`: stamps the event with the counter, advances the
        counter by one whatever happens next, and enqueues the stamped event
        on the outgoing queue under the overflow policy. */
    method ProduceEvent(event: Event) returns (stamped: Event)
      requires Valid()
      modifies this`nextEventId, this`outgoing, this`incoming
      ensures Valid()
      ensures incoming == old(incoming)
      ensures stamped == event.(eventId := old(nextEventId))
      ensures nextEventId == old(nextEventId) + 1
      ensures outgoing == Offer(old(outgoing), stamped, config.queueMaxSize, config.queueOverflow)
    {
      stamped := event.(eventId := nextEventId);
      nextEventId := nextEventId + 1;
      OfferResolves(outgoing, stamped, config.queueMaxSize, config.queueOverflow);
      OfferKeepsIdsIncreasing(outgoing, stamped, config.queueMaxSize, config.queueOverflow);
      var put := PutNowait(outgoing, stamped, config.queueMaxSize);
      if put.Some? {
        outgoing := put.value;
      } else {
        HandleQueueFull(Outgoing, stamped);
      }
    }

    /** `_handle_event_from_game`: the event keeps the id the game gave it and
        is enqueued on the incoming queue under the overflow policy. */
    method HandleEventFromGame(event: Event)
      requires Valid()
      modifies this`outgoing, this`incoming
      ensures Valid()
      ensures outgoing == old(outgoing)
      ensures incoming == Offer(old(incoming), event, config.queueMaxSize, config.queueOverflow)
    {
      OfferResolves(incoming, event, config.queueMaxSize, config.queueOverflow);
      var put := PutNowait(incoming, event, config.queueMaxSize);
      if put.Some? {
        incoming := put.value;
      } else {
        HandleQueueFull(Incoming, event);
      }
    }

    /** The handler loop of both workers: each handler is awaited in turn and
        one that raises is logged and passed over. */
    method RunHandlers(e: Event, fails: (HandlerId, Event) -> bool)
      modifies this`trace
      ensures trace == old(trace) + Dispatch(handlers, e, fails)
    {
      var i := 0;
      while i < |handlers|
        invariant 0 <= i <= |handlers|
        invariant trace == old(trace) + Dispatch(handlers[..i], e, fails)
      {
        var h := handlers[i];
        var failed := fails(h, e);
        trace := trace + [Invoked(h, e, failed)];
        assert handlers[..i + 1][..i] == handlers[..i];
        i := i + 1;
      }
      assert handlers[..i] == handlers;
    }

    /** One iteration of `_producer`. On an empty queue the worker stays
        suspended in `get()` and nothing changes; otherwise the head is
        removed, handed to the backend once, and dispatched to every handler. */
    method ProducerStep(fails: (HandlerId, Event) -> bool) returns (taken: Option<Event>)
      requires Valid()
      modifies this`outgoing, this`trace, backend`sent
      ensures Valid()
      ensures old(outgoing) == [] ==>
        taken == None && outgoing == [] && trace == old(trace) && backend.sent == old(backend.sent)
      ensures old(outgoing) != [] ==>
        && taken == Some(old(outgoing)[0])
        && outgoing == old(outgoing)[1..]
        && backend.sent == old(backend.sent) + [taken.value]
        && trace == old(trace) + [Published(taken.value)] + Dispatch(handlers, taken.value, fails)
    {
      if outgoing == [] {
        return None;
      }
      var e := outgoing[0];
      outgoing := outgoing[1..];
      taken := Some(e);
      backend.PublishEventToGame(e);
      trace := trace + [Published(e)];
      RunHandlers(e, fails);
    }

    /** One iteration of `_consumer`: as `ProducerStep` on the incoming
        queue, without the hand-off to the backend. */
    method ConsumerStep(fails: (HandlerId, Event) -> bool) returns (taken: Option<Event>)
      requires Valid()
      modifies this`incoming, this`trace
      ensures Valid()
      ensures old(incoming) == [] ==> taken == None && incoming == [] && trace == old(trace)
      ensures old(incoming) != [] ==>
        && taken == Some(old(incoming)[0])
        && incoming == old(incoming)[1..]
        && trace == old(trace) + Dispatch(handlers, taken.value, fails)
    {
      if incoming == [] {
        return None;
      }
      var e := incoming[0];
      incoming := incoming[1..];
      taken := Some(e);
      RunHandlers(e, fails);
    }
  }

  /** The end-to-end scenario of a bus with room for two events under
      drop_oldest: A, B and C are produced before any worker runs, A is
      dropped, and two producer steps hand B then C to the backend with the
      ids 2 and 3, each followed by one call per handler. A client of the
      contracts above: it proves what they promise for this run. */
  method DropOldestScenario(fails: (HandlerId, Event) -> bool)
  {
    var backend := new Backend(true);
    var bus := new EventBus(Config(1, 1, 2, DropOldest), backend);
    bus.RegisterHandler(7);
    bus.RegisterHandler(8);
    assert bus.handlers == [7, 8];
    var a := bus.ProduceEvent(Event(0, "A"));
    assert bus.outgoing == [a];
    var b := bus.ProduceEvent(Event(0, "B"));
    assert bus.outgoing == [a, b];
    var c := bus.ProduceEvent(Event(0, "C"));
    assert a.eventId == 1 && b == Event(2, "B") && c == Event(3, "C");
    assert bus.outgoing == [a, b][1..] + [c] == [b, c];
    DrainTwo(bus, b, c, fails);
  }

  /** The second half of the scenario: two producer steps hand the two queued
      events to the backend in order, each followed by one call per handler,
      and a third step finds the queue empty. */
  method DrainTwo(bus: EventBus, b: Event, c: Event, fails: (HandlerId, Event) -> bool)
    requires bus.Valid() && bus.outgoing == [b, c] && bus.handlers == [7, 8]
    requires bus.trace == [] && bus.backend.sent == []
    modifies bus, bus.backend
  {
    DispatchInvokesEveryHandler([7, 8], b, fails);
    DispatchInvokesEveryHandler([7, 8], c, fails);
    ghost var db := [Invoked(7, b, fails(7, b)), Invoked(8, b, fails(8, b))];
    ghost var dc := [Invoked(7, c, fails(7, c)), Invoked(8, c, fails(8, c))];
    assert Dispatch([7, 8], b, fails) == db;
    assert Dispatch([7, 8], c, fails) == dc;
    var t1 := bus.ProducerStep(fails);
    assert t1 == Some(b) && bus.outgoing == [c];
    assert bus.trace == [Published(b)] + db;
    assert bus.backend.sent == [b];
    ghost var afterB := bus.trace;
    var t2 := bus.ProducerStep(fails);
    assert t2 == Some(c) && bus.outgoing == [];
    assert bus.trace == afterB + [Published(c)] + dc;
    assert bus.backend.sent == [b] + [c];
    var t3 := bus.ProducerStep(fails);
    assert t3 == None;
    assert bus.backend.sent == [b, c];
  }
}
