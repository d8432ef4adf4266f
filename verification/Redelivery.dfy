/** How the queue consumers of the gateway (the receipt lookup and the two throwers) dispose of
    a message they are handed: by `basic_ack`, by a final `basic_reject`, or by a timer that will
    `basic_reject` with requeue. Consumers remember how often they were handed a message in a
    dictionary of counters, and their pending timers in another, both keyed by message id alone.

    The broker is the environment. Here it holds at most one unsettled message for an id; `SharedIds` says
    what becomes of several. */
module Redelivery {

  type Id = string

  /** What the handler made of a delivery. `Failed` asks for another try. `Abandoned` is the handler
      that returns without calling the broker at all. */
  datatype Outcome = Succeeded | Refused | Failed | Abandoned

  datatype Action = Ack | Drop | Hold | Leave

  datatype Tracker = Tracker(counts: map<Id, nat>, timers: set<Id>)

  function Counted(t: Tracker, id: Id): Tracker {
    t.(counts := t.counts[id := if id in t.counts then t.counts[id] + 1 else 1])
  }

  /** Dispose of a delivery that has been counted: a failed one is held for a retry while its counter is
      below `limit`. */
  function Dispose(limit: int, t: Tracker, id: Id, o: Outcome): (Tracker, Action) {
    var gone := Tracker(t.counts - {id}, t.timers - {id});
    match o
    case Succeeded => (gone, Ack)
    case Refused => (gone, Drop)
    case Failed =>
      if id in t.counts && t.counts[id] < limit then (t.(timers := t.timers + {id}), Hold) else (gone, Drop)
    case Abandoned => (t.(timers := t.timers - {id}), Leave)
  }

  function Settle(limit: int, t: Tracker, id: Id, o: Outcome): (Tracker, Action) {
    Dispose(limit, Counted(t, id), id, o)
  }

  /** A delivery, by the tag the broker gave it. */
  datatype Delivery = Delivery(tag: nat, id: Id)

  /** A timer that will return a message to the queue; one that has fired stays in its dictionary until it is
      cleared. */
  datatype Timer = Timer(delivery: Delivery, active: bool)

  datatype BrokerCall = BasicAck(tag: nat) | BasicReject(tag: nat, requeue: bool)

  /** The calls an action makes when it is taken; a held message is rejected later, by its timer. */
  function CallsOf(a: Action, tag: nat): seq<BrokerCall> {
    match a
    case Ack => [BasicAck(tag)]
    case Drop => [BasicReject(tag, false)]
    case _ => []
  }

  datatype Phase = Queued | Waiting | Done | Stuck

  /** A message as the broker sees it: deliveries made and broker calls received since it was published. */
  datatype Message = Message(phase: Phase, deliveries: nat, calls: nat)

  datatype World = World(tracker: Tracker, messages: map<Id, Message>)

  datatype Event = Publish(id: Id) | Deliver(id: Id, outcome: Outcome) | Fire(id: Id)

  const Start := World(Tracker(map[], {}), map[])

  predicate Enabled(w: World, e: Event) {
    match e
    case Publish(id) => id in w.messages ==> w.messages[id].phase.Done?
    case Deliver(id, _) => id in w.messages && w.messages[id].phase.Queued?
    case Fire(id) => id in w.tracker.timers
  }

  function After(m: Message, a: Action): Message {
    match a
    case Ack => Message(Done, m.deliveries + 1, m.calls + 1)
    case Drop => Message(Done, m.deliveries + 1, m.calls + 1)
    case Hold => Message(Waiting, m.deliveries + 1, m.calls)
    case Leave => Message(Stuck, m.deliveries + 1, m.calls)
  }

  function Next(limit: int, w: World, e: Event): World {
    match e
    case Publish(id) => World(w.tracker, w.messages[id := Message(Queued, 0, 0)])
    case Deliver(id, o) =>
      var (t, a) := Settle(limit, w.tracker, id, o);
      if id in w.messages then World(t, w.messages[id := After(w.messages[id], a)]) else World(t, w.messages)
    case Fire(id) =>
      var t := Tracker(w.tracker.counts, w.tracker.timers - {id});
      if id in w.messages
      then World(t, w.messages[id := w.messages[id].(phase := Queued, calls := w.messages[id].calls + 1)])
      else World(t, w.messages)
  }

  function Run(limit: int, es: seq<Event>): World {
    if es == [] then Start else Next(limit, Run(limit, es[..|es| - 1]), es[|es| - 1])
  }

  predicate Legal(limit: int, es: seq<Event>) {
    es == [] || (Legal(limit, es[..|es| - 1]) && Enabled(Run(limit, es[..|es| - 1]), es[|es| - 1]))
  }

  function Most(limit: int): nat { if limit < 1 then 1 else limit }

  /** What a consumer with this limit guarantees about one message. */
  ghost predicate Accounted(limit: int, t: Tracker, id: Id, m: Message) {
    // every delivery is answered by one broker call, or by the one pending timer, or (only when the
    // handler abandoned it) by nothing
    && m.deliveries == m.calls + (if m.phase.Waiting? || m.phase.Stuck? then 1 else 0)
    && (id in t.timers <==> m.phase.Waiting?)
    && m.deliveries <= Most(limit)
    // the counter is the number of deliveries, and goes when the message is settled
    && (id in t.counts <==> m.deliveries > 0 && !m.phase.Done?)
    && (id in t.counts ==> t.counts[id] == m.deliveries)
    && (m.phase.Waiting? ==> m.deliveries < limit)
    && (m.phase.Queued? ==> m.deliveries == 0 || m.deliveries < limit)
  }

  ghost predicate Sound(limit: int, w: World) {
    && w.tracker.timers <= w.messages.Keys
    && w.tracker.counts.Keys <= w.messages.Keys
    && forall id :: id in w.messages ==> Accounted(limit, w.tracker, id, w.messages[id])
  }

  lemma OthersUntouched(limit: int, w: World, e: Event, id: Id)
    requires id != e.id
    ensures id in Next(limit, w, e).messages <==> id in w.messages
    ensures id in w.messages ==> Next(limit, w, e).messages[id] == w.messages[id]
    ensures id in Next(limit, w, e).tracker.timers <==> id in w.tracker.timers
    ensures id in Next(limit, w, e).tracker.counts <==> id in w.tracker.counts
    ensures id in w.tracker.counts ==> Next(limit, w, e).tracker.counts[id] == w.tracker.counts[id]
  {
  }

  lemma OneAccounted(limit: int, w: World, e: Event)
    requires Sound(limit, w) && Enabled(w, e)
    ensures e.id in Next(limit, w, e).messages
    ensures Accounted(limit, Next(limit, w, e).tracker, e.id, Next(limit, w, e).messages[e.id])
  {
    if e.id in w.messages {
      assert Accounted(limit, w.tracker, e.id, w.messages[e.id]);
    }
  }

  lemma NextKeepsSound(limit: int, w: World, e: Event)
    requires Sound(limit, w) && Enabled(w, e)
    ensures Sound(limit, Next(limit, w, e))
  {
    var w' := Next(limit, w, e);
    OneAccounted(limit, w, e);
    forall id | id in w'.messages
      ensures Accounted(limit, w'.tracker, id, w'.messages[id])
    {
      if id != e.id {
        OthersUntouched(limit, w, e, id);
        assert Accounted(limit, w.tracker, id, w.messages[id]);
      }
    }
  }

  /** In every run, whatever the outcomes and however the messages interleave: each delivery is settled
      exactly once, no message is delivered more than max(1, limit) times, and a settled message leaves
      neither a counter nor a timer behind. */
  lemma {:induction false} EveryDeliverySettledOnce(limit: int, es: seq<Event>)
    requires Legal(limit, es)
    ensures Sound(limit, Run(limit, es))
  {
    if es != [] {
      EveryDeliverySettledOnce(limit, es[..|es| - 1]);
      NextKeepsSound(limit, Run(limit, es[..|es| - 1]), es[|es| - 1]);
    }
  }

  predicate Abandons(e: Event, id: Id) { e.Deliver? && e.id == id && e.outcome.Abandoned? }

  /** A message no delivery of which is abandoned is never stuck, whatever happens to others. */
  lemma {:induction false} NeverStuck(limit: int, es: seq<Event>, id: Id)
    requires Legal(limit, es) && forall i :: 0 <= i < |es| ==> !Abandons(es[i], id)
    ensures id in Run(limit, es).messages ==> !Run(limit, es).messages[id].phase.Stuck?
  {
    if es != [] {
      var before := es[..|es| - 1];
      forall i | 0 <= i < |before| ensures !Abandons(before[i], id) { assert !Abandons(es[i], id); }
      NeverStuck(limit, before, id);
      assert !Abandons(es[|es| - 1], id);
      if es[|es| - 1].id != id { OthersUntouched(limit, Run(limit, before), es[|es| - 1], id); }
    }
  }

  /** The run in which message `id` is published and then fails every one of `n` deliveries. */
  function Failing(id: Id, n: nat): seq<Event> {
    if n == 0 then [Publish(id)]
    else if n == 1 then Failing(id, 0) + [Deliver(id, Failed)]
    else Failing(id, n - 1) + [Fire(id), Deliver(id, Failed)]
  }

  lemma {:induction false} RunOnce(limit: int, es: seq<Event>, e: Event)
    ensures Run(limit, es + [e]) == Next(limit, Run(limit, es), e)
    ensures Legal(limit, es + [e]) <==> Legal(limit, es) && Enabled(Run(limit, es), e)
  {
    assert (es + [e])[..|es|] == es;
  }

  /** A message that failed all its `n` deliveries so far. */
  ghost predicate FailedSoFar(limit: int, w: World, id: Id, n: nat) {
    && id in w.messages
    && w.messages[id].deliveries == n
    && w.messages[id].phase == (if n == 0 then Queued else if n == Most(limit) then Done else Waiting)
  }

  lemma FailOnce(limit: int, w: World, id: Id, n: nat)
    requires Sound(limit, w) && FailedSoFar(limit, w, id, n) && n < Most(limit)
    ensures n == 0 ==> Enabled(w, Deliver(id, Failed))
    ensures n == 0 ==> FailedSoFar(limit, Next(limit, w, Deliver(id, Failed)), id, 1)
    ensures n > 0 ==> Enabled(w, Fire(id)) && Enabled(Next(limit, w, Fire(id)), Deliver(id, Failed))
    ensures n > 0 ==> FailedSoFar(limit, Next(limit, Next(limit, w, Fire(id)), Deliver(id, Failed)), id, n + 1)
  {
    assert Accounted(limit, w.tracker, id, w.messages[id]);
  }

  /** The bound is met: a message that always fails is held until its max(1, limit)-th delivery, which drops it. */
  lemma {:induction false} AlwaysFailing(limit: int, id: Id, n: nat)
    requires n <= Most(limit)
    ensures Legal(limit, Failing(id, n))
    ensures FailedSoFar(limit, Run(limit, Failing(id, n)), id, n)
  {
    if n == 0 {
      RunOnce(limit, [], Publish(id));
      assert [] + [Publish(id)] == Failing(id, 0);
    } else {
      AlwaysFailing(limit, id, n - 1);
      var es := Failing(id, n - 1);
      EveryDeliverySettledOnce(limit, es);
      FailOnce(limit, Run(limit, es), id, n - 1);
      if n == 1 {
        RunOnce(limit, es, Deliver(id, Failed));
      } else {
        RunOnce(limit, es, Fire(id));
        RunOnce(limit, es + [Fire(id)], Deliver(id, Failed));
        assert es + [Fire(id)] + [Deliver(id, Failed)] == Failing(id, n);
      }
    }
  }
}
