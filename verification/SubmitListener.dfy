/** The consumer of a connector's `submit.sm` queue: every message it is handed is acknowledged, dropped, or returned to
    the queue, at once or by a timer. Stopping the connector returns the messages its timers held. */
module SubmitListener {
  import opened Redelivery

  /** What came of a delivery. */
  datatype Attempt =
    | Garbled                          // cannot be read
    | NotSubmitSm
    | Expired
    | NotReady(age: nat)               // connector not connected or not bound; age of the message in seconds
    | BadTlvs                          // refused by the connector's rules
    | TimedOut                         // no response
    | LongFailed                       // a part of a long message failed
    | Broken                           // any other error
    | Answered(ok: bool, status: string)

  datatype Retrial = Retrial(count: int, delay: nat)

  /** A delay of zero returns a message at once. */
  datatype Config = Config(maxAge: int, notReadyDelay: nat, retrials: map<string, Retrial>)

  datatype Fate = Acked | Dropped | Returned | Held

  function Again(delay: nat): Fate { if delay == 0 then Returned else Held }

  /** What becomes of a message on its `count`-th delivery. The age is compared by the seconds of the day that are left
      when whole days are taken off. */
  function FateOf(cfg: Config, count: nat, a: Attempt): Fate {
    match a
    case Answered(ok, status) =>
      if !ok && status in cfg.retrials && count < cfg.retrials[status].count then Again(cfg.retrials[status].delay)
      else Acked
    case NotReady(age) => if age % 86400 > cfg.maxAge then Dropped else Again(cfg.notReadyDelay)
    case TimedOut => Held
    case LongFailed => Held
    case _ => Dropped
  }

  /** The age limit is kept, a message being dropped just when it is over it, exactly for messages within the limit and
      for those whose age past whole days is over it too. */
  lemma AgeLimitKeptIff(cfg: Config, count: nat, age: nat)
    ensures (FateOf(cfg, count, NotReady(age)).Dropped? <==> age > cfg.maxAge) <==>
            age <= cfg.maxAge || age % 86400 > cfg.maxAge
  {
  }

  /** The counter goes with an accepted message and with the last retry of an error, not with a dropped message nor
      with an error that is never retried. */
  predicate Forgets(cfg: Config, count: nat, a: Attempt) {
    a.Answered? && (a.ok || (a.status in cfg.retrials && count >= cfg.retrials[a.status].count))
  }

  function CountOf(t: Tracker, id: Id): nat { if id in t.counts then t.counts[id] else 0 }

  function Handle(cfg: Config, t: Tracker, id: Id, a: Attempt): (Tracker, Fate) {
    if a.Garbled? then (t, Dropped)
    else
      var n := CountOf(t, id) + 1;
      var fate := FateOf(cfg, n, a);
      (Tracker(if Forgets(cfg, n, a) then t.counts - {id} else t.counts[id := n],
               if fate.Held? then t.timers + {id} else if fate.Acked? then t.timers - {id} else t.timers),
       fate)
  }

  // Whole histories

  datatype Event = Publish(id: Id) | Deliver(id: Id, attempt: Attempt) | Fire(id: Id) | Stop

  predicate Enabled(w: World, e: Event) {
    match e
    case Publish(id) => id !in w.messages
    case Deliver(id, _) => id in w.messages && w.messages[id].phase.Queued?
    case Fire(id) => id in w.tracker.timers
    case Stop => true
  }

  function Given(m: Message, fate: Fate): Message {
    match fate
    case Acked => Message(Done, m.deliveries + 1, m.calls + 1)
    case Dropped => Message(Done, m.deliveries + 1, m.calls + 1)
    case Returned => Message(Queued, m.deliveries + 1, m.calls + 1)
    case Held => Message(Waiting, m.deliveries + 1, m.calls)
  }

  function Back(m: Message): Message { Message(Queued, m.deliveries, m.calls + 1) }

  function Next(cfg: Config, w: World, e: Event): World
    requires Enabled(w, e)
  {
    match e
    case Publish(id) => World(w.tracker, w.messages[id := Message(Queued, 0, 0)])
    case Deliver(id, a) =>
      var (t, fate) := Handle(cfg, w.tracker, id, a);
      World(t, w.messages[id := Given(w.messages[id], fate)])
    case Fire(id) =>
      World(w.tracker.(timers := w.tracker.timers - {id}),
            if id in w.messages then w.messages[id := Back(w.messages[id])] else w.messages)
    case Stop =>
      World(w.tracker.(timers := {}),
            map id | id in w.messages ::
              if id in w.tracker.timers then Back(w.messages[id]) else w.messages[id])
  }

  predicate Legal(cfg: Config, es: seq<Event>)
    decreases |es|, 0
  {
    es == [] || (Legal(cfg, es[..|es| - 1]) && Enabled(Run(cfg, es[..|es| - 1]), es[|es| - 1]))
  }

  function Run(cfg: Config, es: seq<Event>): World
    requires Legal(cfg, es)
    decreases |es|, 1
  {
    if es == [] then Start else Next(cfg, Run(cfg, es[..|es| - 1]), es[|es| - 1])
  }

  /** Every delivery of the message was answered by one call to the broker, but for the one a timer still holds. */
  ghost predicate Kept(t: Tracker, id: Id, m: Message) {
    && m.deliveries == m.calls + (if m.phase.Waiting? then 1 else 0)
    && !m.phase.Stuck?
    && (id in t.timers <==> m.phase.Waiting?)
    && (!m.phase.Done? ==> CountOf(t, id) == m.deliveries)
  }

  ghost predicate Sound(w: World) {
    && w.tracker.timers <= w.messages.Keys && w.tracker.counts.Keys <= w.messages.Keys
    && forall id :: id in w.messages ==> Kept(w.tracker, id, w.messages[id])
  }

  lemma OthersKept(cfg: Config, w: World, e: Event, id: Id)
    requires Sound(w) && Enabled(w, e) && id in w.messages && (e.Stop? || e.id != id)
    ensures id in Next(cfg, w, e).messages && Kept(Next(cfg, w, e).tracker, id, Next(cfg, w, e).messages[id])
  {
    assert Kept(w.tracker, id, w.messages[id]);
  }

  lemma OneKept(cfg: Config, w: World, e: Event)
    requires Sound(w) && Enabled(w, e) && !e.Stop?
    ensures e.id in Next(cfg, w, e).messages && Kept(Next(cfg, w, e).tracker, e.id, Next(cfg, w, e).messages[e.id])
  {
    if e.id in w.messages { assert Kept(w.tracker, e.id, w.messages[e.id]); }
  }

  lemma NextKeepsSound(cfg: Config, w: World, e: Event)
    requires Sound(w) && Enabled(w, e)
    ensures Sound(Next(cfg, w, e))
  {
    var after := Next(cfg, w, e);
    forall id | id in after.messages ensures Kept(after.tracker, id, after.messages[id]) {
      if e.Stop? || e.id != id { OthersKept(cfg, w, e, id); } else { OneKept(cfg, w, e); }
    }
    if !e.Stop? { OneKept(cfg, w, e); }
  }

  /** No history loses a message or settles a delivery twice, connector stops included. */
  lemma {:induction false} NothingIsLost(cfg: Config, es: seq<Event>)
    requires Legal(cfg, es)
    ensures Sound(Run(cfg, es))
  {
    if es != [] {
      NothingIsLost(cfg, es[..|es| - 1]);
      NextKeepsSound(cfg, Run(cfg, es[..|es| - 1]), es[|es| - 1]);
    }
  }

  /** After a stop no timer is left, and every message that is not done with is in the queue. */
  lemma StopReturnsAll(cfg: Config, es: seq<Event>, id: Id)
    requires Legal(cfg, es) && id in Run(cfg, es).messages
    ensures var w := Next(cfg, Run(cfg, es), Stop);
            && w.tracker.timers == {} && id in w.messages
            && (w.messages[id].phase.Queued? || w.messages[id].phase.Done?)
            && w.messages[id].deliveries == w.messages[id].calls == Run(cfg, es).messages[id].deliveries
  {
    NothingIsLost(cfg, es);
    assert Kept(Run(cfg, es).tracker, id, Run(cfg, es).messages[id]);
  }

  // Error responses

  predicate Answers(e: Event, id: Id) { e.Deliver? && e.id == id ==> e.attempt.Answered? }

  predicate CountsUpTo(cfg: Config, most: nat) {
    forall st :: st in cfg.retrials ==> cfg.retrials[st].count <= most
  }

  /** A message that is always answered is submitted at most as often as the largest retry count, and at least once. */
  lemma {:induction false} ErrorRetriesBounded(cfg: Config, es: seq<Event>, id: Id, most: nat)
    requires Legal(cfg, es) && CountsUpTo(cfg, most) && most >= 1
    requires forall k :: 0 <= k < |es| ==> Answers(es[k], id)
    ensures id in Run(cfg, es).messages ==>
              var m := Run(cfg, es).messages[id];
              m.deliveries <= most && (!m.phase.Done? && m.deliveries > 0 ==> m.deliveries < most)
  {
    if es != [] {
      var before := es[..|es| - 1];
      assert forall k :: 0 <= k < |before| ==> before[k] == es[k];
      ErrorRetriesBounded(cfg, before, id, most);
      NothingIsLost(cfg, before);
      var e, w := es[|es| - 1], Run(cfg, before);
      assert Answers(e, id);
      if id in w.messages { assert Kept(w.tracker, id, w.messages[id]); }
    }
  }

  /** An answered message goes back to the queue exactly when it was answered with an error that has retries left after
      this delivery. */
  lemma RetriedIff(cfg: Config, es: seq<Event>, id: Id, ok: bool, status: string)
    requires Legal(cfg, es) && Enabled(Run(cfg, es), Event.Deliver(id, Answered(ok, status)))
    ensures var n := Run(cfg, es).messages[id].deliveries + 1;
            var m := Next(cfg, Run(cfg, es), Event.Deliver(id, Answered(ok, status))).messages[id];
            !m.phase.Done? <==> !ok && status in cfg.retrials && n < cfg.retrials[status].count
  {
    NothingIsLost(cfg, es);
    assert Kept(Run(cfg, es).tracker, id, Run(cfg, es).messages[id]);
  }

  predicate RetriesLeft(cfg: Config, a: Attempt, n: nat) {
    a.Answered? && !a.ok && a.status in cfg.retrials && n < cfg.retrials[a.status].count
  }

  /** What the n-th delivery of a message comes to for the broker: unreadable, foreign, expired, invalid and broken
      messages are rejected for good; those without a response, and long ones a part of which failed, are held; those a
      connector is not ready for are rejected by age, else returned; answered ones are acknowledged but for errors with
      retries left. The counter goes when an answer is final by success or by a used-up retry. */
  lemma DeliveryEnds(cfg: Config, es: seq<Event>, id: Id, a: Attempt, tag: nat)
    requires Legal(cfg, es) && Enabled(Run(cfg, es), Event.Deliver(id, a))
    ensures var w := Run(cfg, es);
            var n := w.messages[id].deliveries + 1;
            var (t, fate) := Handle(cfg, w.tracker, id, a);
            && CallsFor(fate, tag) ==
               (if a.TimedOut? || a.LongFailed? then []
                else if a.NotReady? && a.age % 86400 <= cfg.maxAge
                then if cfg.notReadyDelay > 0 then [] else [BasicReject(tag, true)]
                else if RetriesLeft(cfg, a, n)
                then if cfg.retrials[a.status].delay > 0 then [] else [BasicReject(tag, true)]
                else if a.Answered? then [BasicAck(tag)]
                else [BasicReject(tag, false)])
            && (id in t.timers <==> CallsFor(fate, tag) == [])
            && (!a.Garbled? ==>
                  (id !in t.counts <==> a.Answered? && !RetriesLeft(cfg, a, n) && (a.ok || a.status in cfg.retrials)))
  {
    NothingIsLost(cfg, es);
    assert Kept(Run(cfg, es).tracker, id, Run(cfg, es).messages[id]);
  }

  // Messages over the age limit

  /** Messages of this age, over the limit or not, are kept. */
  predicate Overlooked(cfg: Config, age: nat) { age % 86400 <= cfg.maxAge }

  predicate OnlyOverlooked(cfg: Config, e: Event, id: Id) {
    e.Deliver? && e.id == id ==> e.attempt.NotReady? && Overlooked(cfg, e.attempt.age)
  }

  /** A message that is offered to a connector that is not ready only at such ages is never dropped. */
  lemma {:induction false} NeverDropped(cfg: Config, es: seq<Event>, id: Id)
    requires Legal(cfg, es) && forall k :: 0 <= k < |es| ==> OnlyOverlooked(cfg, es[k], id)
    ensures id in Run(cfg, es).messages ==> !Run(cfg, es).messages[id].phase.Done?
  {
    if es != [] {
      var before := es[..|es| - 1];
      forall k | 0 <= k < |before| ensures OnlyOverlooked(cfg, before[k], id) {
        assert OnlyOverlooked(cfg, es[k], id);
      }
      NeverDropped(cfg, before, id);
      NothingIsLost(cfg, before);
      assert OnlyOverlooked(cfg, es[|es| - 1], id);
      var w := Run(cfg, before);
      if id in w.messages { assert Kept(w.tracker, id, w.messages[id]); }
    }
  }

  /** The run that publishes a message and offers it at each of these ages, its timer firing in between. */
  function Offers(cfg: Config, id: Id, ages: seq<nat>): seq<Event> {
    if ages == [] then [Event.Publish(id)]
    else
      Offers(cfg, id, ages[..|ages| - 1]) + [Event.Deliver(id, NotReady(ages[|ages| - 1]))] +
      if cfg.notReadyDelay > 0 then [Event.Fire(id)] else []
  }

  lemma StepTo(cfg: Config, es: seq<Event>, e: Event)
    requires Legal(cfg, es) && Enabled(Run(cfg, es), e)
    ensures Legal(cfg, es + [e]) && Run(cfg, es + [e]) == Next(cfg, Run(cfg, es), e)
  {
    assert (es + [e])[..|es|] == es;
  }

  predicate OfferedTimes(w: World, id: Id, n: nat) {
    && id in w.messages && w.messages[id].phase.Queued? && w.messages[id].deliveries == n
  }

  /** However old it is and however often it is offered at such ages, it goes back to the queue each time. */
  lemma {:induction false} OfferedForever(cfg: Config, id: Id, ages: seq<nat>)
    requires forall i :: 0 <= i < |ages| ==> Overlooked(cfg, ages[i])
    ensures Legal(cfg, Offers(cfg, id, ages)) && OfferedTimes(Run(cfg, Offers(cfg, id, ages)), id, |ages|)
  {
    if ages == [] {
      var none: seq<Event> := [];
      StepTo(cfg, none, Event.Publish(id));
      assert none + [Event.Publish(id)] == [Event.Publish(id)];
    } else {
      var before, age := Offers(cfg, id, ages[..|ages| - 1]), ages[|ages| - 1];
      OfferedForever(cfg, id, ages[..|ages| - 1]);
      OfferedOnce(cfg, before, id, age, |ages| - 1);
    }
  }

  lemma OfferedOnce(cfg: Config, es: seq<Event>, id: Id, age: nat, n: nat)
    requires Legal(cfg, es) && OfferedTimes(Run(cfg, es), id, n) && Overlooked(cfg, age)
    ensures var offered := es + [Event.Deliver(id, NotReady(age))] +
                           if cfg.notReadyDelay > 0 then [Event.Fire(id)] else [];
            Legal(cfg, offered) && OfferedTimes(Run(cfg, offered), id, n + 1)
  {
    var offer := Event.Deliver(id, NotReady(age));
    StepTo(cfg, es, offer);
    if cfg.notReadyDelay > 0 {
      StepTo(cfg, es + [offer], Event.Fire(id));
    } else {
      assert es + [offer] + [] == es + [offer];
    }
  }

  // The code

  function CallsFor(f: Fate, tag: nat): seq<BrokerCall> {
    match f
    case Acked => [BasicAck(tag)]
    case Dropped => [BasicReject(tag, false)]
    case Returned => [BasicReject(tag, true)]
    case Held => []
  }

  function ActiveIn(timers: map<Id, Timer>): set<Id> { set id | id in timers && timers[id].active }

  predicate NoRepeats(ids: seq<Id>) { forall i, j :: 0 <= i < j < |ids| ==> ids[i] != ids[j] }

  /** The calls that return the messages held for `ids`. */
  function Requeues(timers: map<Id, Timer>, ids: seq<Id>): seq<BrokerCall> {
    if ids == [] then []
    else
      var id := ids[|ids| - 1];
      Requeues(timers, ids[..|ids| - 1]) + if id in timers then [BasicReject(timers[id].delivery.tag, true)] else []
  }

  class Listener {
    const cfg: Config
    var submitRetrials: map<Id, nat>
    var rejectTimers: map<Id, Timer>
    var calls: seq<BrokerCall>

    // the notices sent to the receipt lookup: message, and whether and with what status it was answered
    var notices: seq<(Id, bool, string)>

    constructor (cfg: Config)
      ensures this.cfg == cfg && Tracked() == Start.tracker && calls == [] && notices == []
    {
      this.cfg := cfg;
      submitRetrials, rejectTimers, calls, notices := map[], map[], [], [];
    }

    ghost function Tracked(): Tracker reads this { Tracker(submitRetrials, ActiveIn(rejectTimers)) }

    method ClearRejectTimer(id: Id)
      modifies this`rejectTimers
      ensures rejectTimers == old(rejectTimers) - {id}
    {
      if id in rejectTimers { rejectTimers := rejectTimers - {id}; }
    }

    method RejectAndRequeueMessage(d: Delivery, delayed: bool)
      modifies this`rejectTimers, this`calls
      ensures rejectTimers == if delayed then old(rejectTimers)[d.id := Timer(d, true)] else old(rejectTimers)
      ensures calls == old(calls) + CallsFor(if delayed then Held else Returned, d.tag)
    {
      if delayed {
        var timer := Timer(d, true);
        ClearRejectTimer(d.id);
        rejectTimers := rejectTimers[d.id := timer];
      } else {
        RejectMessage(d, true);
      }
    }

    method RejectMessage(d: Delivery, requeue: bool)
      modifies this`calls
      ensures calls == old(calls) + [BasicReject(d.tag, requeue)]
    {
      calls := calls + [BasicReject(d.tag, requeue)];
    }

    method TimerFired(id: Id)
      requires id in rejectTimers && rejectTimers[id].active
      modifies this`rejectTimers, this`calls
      ensures Tracked() == Tracker(old(submitRetrials), old(Tracked()).timers - {id})
      ensures calls == old(calls) + [BasicReject(old(rejectTimers)[id].delivery.tag, true)]
    {
      rejectTimers := rejectTimers[id := rejectTimers[id].(active := false)];
      RejectMessage(rejectTimers[id].delivery, true);
    }

    method CountDelivery(id: Id)
      modifies this`submitRetrials
      ensures submitRetrials == old(submitRetrials)[id := CountOf(old(Tracked()), id) + 1]
    {
      if id in submitRetrials {
        submitRetrials := submitRetrials[id := submitRetrials[id] + 1];
      } else {
        submitRetrials := submitRetrials[id := 1];
      }
    }

    /** `submit_sm_resp_event`, as far as the message, its timer and the notice go. An error that will be retried is
        notified like a final one. */
    method SubmitSmRespEvent(d: Delivery, ok: bool, status: string)
      requires d.id in submitRetrials
      modifies this
      ensures notices == old(notices) + [(d.id, ok, status)]
      ensures var n := old(submitRetrials)[d.id];
              && submitRetrials == (if Forgets(cfg, n, Answered(ok, status)) then old(submitRetrials) - {d.id}
                                    else old(submitRetrials))
              && var f := FateOf(cfg, n, Answered(ok, status));
                 && calls == old(calls) + CallsFor(f, d.tag)
                 && rejectTimers == match f
                                    case Held => old(rejectTimers)[d.id := Timer(d, true)]
                                    case Acked => old(rejectTimers) - {d.id}
                                    case _ => old(rejectTimers)
    {
      var willBeRetried := false;
      if ok {
        submitRetrials := submitRetrials - {d.id};
      } else if status in cfg.retrials {
        var retrial := cfg.retrials[status];
        if submitRetrials[d.id] < retrial.count {
          RejectAndRequeueMessage(d, retrial.delay > 0);
          willBeRetried := true;
        } else {
          submitRetrials := submitRetrials - {d.id};
        }
      }
      if !willBeRetried {
        ClearRejectTimer(d.id);
        calls := calls + [BasicAck(d.tag)];
      }
      notices := notices + [(d.id, ok, status)];
    }

    /** `submit_sm_callback`. */
    method SubmitSmCallback(d: Delivery, a: Attempt)
      modifies this
      ensures var (t, fate) := Handle(cfg, old(Tracked()), d.id, a);
              Tracked() == t && calls == old(calls) + CallsFor(fate, d.tag)
      ensures notices == old(notices) + if a.Answered? then [(d.id, a.ok, a.status)] else []
    {
      if a.Garbled? {
        RejectMessage(d, false);
        return;
      }
      CountDelivery(d.id);
      if a.NotReady? {
        if a.age % 86400 > cfg.maxAge {
          RejectMessage(d, false);
        } else {
          RejectAndRequeueMessage(d, cfg.notReadyDelay > 0);
        }
      } else if a.Answered? {
        SubmitSmRespEvent(d, a.ok, a.status);
      } else if a.TimedOut? || a.LongFailed? {
        RejectAndRequeueMessage(d, true);
      } else {
        RejectMessage(d, false);
      }
    }

    /** An active timer is called off and its message returned to the queue. */
    method ReturnOne(id: Id) returns (held: bool)
      requires id in rejectTimers
      modifies this`rejectTimers, this`calls
      ensures held == old(rejectTimers)[id].active
      ensures rejectTimers == if held then old(rejectTimers) - {id} else old(rejectTimers)
      ensures calls == old(calls) + if held then [BasicReject(old(rejectTimers)[id].delivery.tag, true)] else []
    {
      held := rejectTimers[id].active;
      if held {
        var d := rejectTimers[id].delivery;
        rejectTimers := rejectTimers - {id};
        RejectMessage(d, true);
      }
    }

    /** The part of `perspective_connector_stop` that empties the timers: every active one is called off and its message
        returned to the queue, each once. */
    method ReturnHeld() returns (ghost order: seq<Id>)
      modifies this`rejectTimers, this`calls
      ensures rejectTimers == map[]
      ensures NoRepeats(order) && forall id :: id in order <==> id in old(Tracked()).timers
      ensures calls == old(calls) + Requeues(old(rejectTimers), order)
    {
      order := [];
      ghost var timers := rejectTimers;
      var todo := rejectTimers.Keys;
      while todo != {}
        invariant Drained(timers, rejectTimers, todo, order, old(calls), calls)
        decreases |todo|
      {
        var id :| id in todo;
        DrainStep(timers, rejectTimers, todo, order, old(calls), calls, id);
        var held := ReturnOne(id);
        todo := todo - {id};
        if held { order := order + [id]; }
      }
      rejectTimers := map[];
    }
  }

  /** Of `timers` those not in `todo` have been seen to: the active ones are the ids in `order`, each requeued once. */
  ghost predicate Drained(timers: map<Id, Timer>, left: map<Id, Timer>, todo: set<Id>, order: seq<Id>,
                          before: seq<BrokerCall>, calls: seq<BrokerCall>)
  {
    && todo <= left.Keys <= timers.Keys
    && (forall id :: id in left ==> left[id] == timers[id])
    && (forall id :: id in order <==> id in timers && timers[id].active && id !in todo)
    && NoRepeats(order)
    && calls == before + Requeues(timers, order)
  }

  lemma DrainStep(timers: map<Id, Timer>, left: map<Id, Timer>, todo: set<Id>, order: seq<Id>,
                  before: seq<BrokerCall>, calls: seq<BrokerCall>, id: Id)
    requires Drained(timers, left, todo, order, before, calls) && id in todo
    ensures left[id].active ==>
              Drained(timers, left - {id}, todo - {id}, order + [id], before,
                      calls + [BasicReject(left[id].delivery.tag, true)])
    ensures !left[id].active ==> Drained(timers, left, todo - {id}, order, before, calls + [])
  {
    assert calls + [] == calls;
    if left[id].active { Appended(timers, order, id); }
  }

  lemma Appended(timers: map<Id, Timer>, ids: seq<Id>, id: Id)
    requires id in timers && id !in ids && NoRepeats(ids)
    ensures NoRepeats(ids + [id])
    ensures Requeues(timers, ids + [id]) == Requeues(timers, ids) + [BasicReject(timers[id].delivery.tag, true)]
  {
    assert (ids + [id])[..|ids|] == ids;
  }
}
