/** The throwers deliver incoming messages and receipts to clients, over HTTP or over the SMPP server. A
    message goes to one connector, or along the list of a failover route until one accepts it. */
module Throwers {
  import opened Redelivery
  import opened SharedIds

  datatype RouteType = Simple | Failover

  /** How many connectors are tried, from the (k+1)-th on, given which would accept: only the first for a simple route,
      up to the first that accepts for a failover route. */
  function TriedFrom(route: RouteType, accepts: seq<bool>, k: nat): (n: nat)
    requires k < |accepts|
    ensures k < n <= |accepts| && (route.Simple? ==> n == k + 1)
    ensures forall i :: k <= i < n - 1 ==> !accepts[i]
    ensures route.Failover? ==> accepts[n - 1] || n == |accepts|
    decreases |accepts| - k
  {
    if route.Simple? || accepts[k] || k + 1 == |accepts| then k + 1 else TriedFrom(route, accepts, k + 1)
  }

  function Tried(route: RouteType, accepts: seq<bool>): (n: nat)
    requires |accepts| > 0
    ensures 1 <= n <= |accepts| && (route.Simple? ==> n == 1)
    ensures forall i :: 0 <= i < n - 1 ==> !accepts[i]
    ensures route.Failover? ==> accepts[n - 1] || n == |accepts|
  {
    TriedFrom(route, accepts, 0)
  }

  function OutcomeOf(rightType: bool, route: RouteType, accepts: seq<bool>, mayRetry: bool): Outcome
    requires |accepts| > 0
  {
    if !rightType then Refused
    else if accepts[Tried(route, accepts) - 1] then Succeeded
    else if route.Failover? then Abandoned
    else if mayRetry then Failed
    else Refused
  }

  /** Some connector the message is thrown to accepts it. */
  predicate Accepted(route: RouteType, accepts: seq<bool>)
    requires |accepts| > 0
  {
    if route.Simple? then accepts[0] else true in accepts
  }

  /** A failover message is acknowledged exactly when some connector accepts it; if none does it is abandoned,
      neither acknowledged nor rejected nor held. */
  lemma {:induction false} FailoverSucceedsIff(accepts: seq<bool>, mayRetry: bool)
    requires |accepts| > 0
    ensures OutcomeOf(true, Failover, accepts, mayRetry).Succeeded? <==> true in accepts
    ensures OutcomeOf(true, Failover, accepts, mayRetry).Abandoned? <==> true !in accepts
  {
    var n := Tried(Failover, accepts);
    if !accepts[n - 1] {
      forall i | 0 <= i < |accepts| ensures !accepts[i] {
        assert i < n - 1 || i == n - 1;
      }
    }
  }

  /** The counters and timers, which all throwers share. */
  class Tracking {
    var throwingRetrials: map<Id, nat>
    var requeueTimers: map<Id, Timer>

    constructor ()
      ensures throwingRetrials == map[] && requeueTimers == map[]
    {
      throwingRetrials, requeueTimers := map[], map[];
    }
  }

  class Thrower {
    const maxRetries: int
    const tracking: Tracking

    // the connectors thrown to and the calls made to the broker, oldest first
    var throws: seq<string>
    var calls: seq<BrokerCall>

    ghost predicate Valid() reads this, tracking {
      forall id :: id in tracking.requeueTimers ==> tracking.requeueTimers[id].delivery.id == id
    }

    ghost function Tracked(): Tracker reads this, tracking {
      Tracker(tracking.throwingRetrials, set id | id in tracking.requeueTimers && tracking.requeueTimers[id].active)
    }

    /** The counters, and the deliveries that active timers will return. */
    ghost function Booked(): Book reads this, tracking {
      Book(tracking.throwingRetrials,
           map id | id in tracking.requeueTimers && tracking.requeueTimers[id].active ::
             tracking.requeueTimers[id].delivery)
    }

    lemma TrackedIsBooked()
      ensures Tracked() == TrackerOf(Booked())
    {
      assert Tracked().timers == Booked().held.Keys;
    }

    /** A new thrower takes the counters and timers as it finds them. */
    constructor (maxRetries: int, tracking: Tracking)
      ensures this.maxRetries == maxRetries && this.tracking == tracking && throws == [] && calls == []
    {
      this.maxRetries, this.tracking := maxRetries, tracking;
      throws, calls := [], [];
    }

    method IncThrowingRetrials(id: Id)
      requires Valid()
      modifies tracking`throwingRetrials
      ensures Valid() && Tracked() == Counted(old(Tracked()), id) && Booked() == Taken(old(Booked()), id, false)
    {
      if id in tracking.throwingRetrials {
        tracking.throwingRetrials := tracking.throwingRetrials[id := tracking.throwingRetrials[id] + 1];
      } else {
        tracking.throwingRetrials := tracking.throwingRetrials[id := 1];
      }
    }

    function GetThrowingRetrials(id: Id): nat
      reads this, tracking
    {
      if id in tracking.throwingRetrials then tracking.throwingRetrials[id] else 0
    }

    method ClearRequeueTimer(id: Id)
      requires Valid()
      modifies tracking`requeueTimers
      ensures Valid() && tracking.requeueTimers == old(tracking.requeueTimers) - {id}
    {
      if id in tracking.requeueTimers { tracking.requeueTimers := tracking.requeueTimers - {id}; }
    }

    method RejectAndRequeueMessage(d: Delivery)
      requires Valid()
      modifies tracking`requeueTimers
      ensures Valid() && tracking.requeueTimers == old(tracking.requeueTimers)[d.id := Timer(d, true)]
    {
      var timer := Timer(d, true);
      ClearRequeueTimer(d.id);
      tracking.requeueTimers := tracking.requeueTimers[d.id := timer];
    }

    method RejectMessage(d: Delivery, requeue: bool)
      modifies tracking`throwingRetrials, this`calls
      ensures tracking.throwingRetrials ==
              if requeue then old(tracking.throwingRetrials) else old(tracking.throwingRetrials) - {d.id}
      ensures calls == old(calls) + [BasicReject(d.tag, requeue)]
    {
      if !requeue && d.id in tracking.throwingRetrials {
        tracking.throwingRetrials := tracking.throwingRetrials - {d.id};
      }
      calls := calls + [BasicReject(d.tag, requeue)];
    }

    method AckMessage(d: Delivery)
      modifies tracking`throwingRetrials, this`calls
      ensures tracking.throwingRetrials == old(tracking.throwingRetrials) - {d.id}
      ensures calls == old(calls) + [BasicAck(d.tag)]
    {
      if d.id in tracking.throwingRetrials { tracking.throwingRetrials := tracking.throwingRetrials - {d.id}; }
      calls := calls + [BasicAck(d.tag)];
    }

    /** An active timer runs out: the message goes back to the queue with its counter, and the timer stays behind,
        no longer active. */
    method TimerFired(id: Id)
      requires Valid() && id in tracking.requeueTimers && tracking.requeueTimers[id].active
      modifies this, tracking
      ensures Valid() && Tracked() == Tracker(old(tracking.throwingRetrials), old(Tracked()).timers - {id})
      ensures Booked() == Book(old(tracking.throwingRetrials), old(Booked()).held - {id})
      ensures calls == old(calls) + [BasicReject(old(tracking.requeueTimers[id]).delivery.tag, true)]
    {
      tracking.requeueTimers := tracking.requeueTimers[id := tracking.requeueTimers[id].(active := false)];
      RejectMessage(tracking.requeueTimers[id].delivery, true);
    }

    /** What follows a failed throw on a simple route, or a failed receipt. A message held for the same id loses its
        timer to this one. */
    method ThrowFailed(d: Delivery, mayRetry: bool)
      requires Valid()
      modifies tracking`throwingRetrials, tracking`requeueTimers, this`calls
      ensures Valid()
      ensures var (b, a) := Closed(maxRetries + 1, old(Booked()), d, if mayRetry then Failed else Refused);
              Booked() == b && calls == old(calls) + CallsOf(a, d.tag)
      ensures if mayRetry && old(GetThrowingRetrials(d.id)) <= maxRetries
              then calls == old(calls) && tracking.requeueTimers == old(tracking.requeueTimers)[d.id := Timer(d, true)]
              else && calls == old(calls) + [BasicReject(d.tag, false)]
                   && tracking.requeueTimers == old(tracking.requeueTimers)
    {
      if mayRetry && GetThrowingRetrials(d.id) <= maxRetries {
        RejectAndRequeueMessage(d);
      } else {
        RejectMessage(d, false);
      }
    }

    /** The loop over the connectors: they are tried in order up to the first that accepts, only the first on a
        simple route. */
    method TryConnectors(route: RouteType, connectors: seq<string>, accepts: seq<bool>) returns (accepted: bool)
      requires |connectors| == |accepts| > 0
      modifies this`throws
      ensures throws == old(throws) + connectors[..Tried(route, accepts)]
      ensures accepted == accepts[Tried(route, accepts) - 1]
    {
      var counter := 0;
      accepted := false;
      while counter < |connectors|
        invariant 0 <= counter < |connectors| && !accepted
        invariant throws == old(throws) + connectors[..counter]
        invariant Tried(route, accepts) == TriedFrom(route, accepts, counter)
        decreases |connectors| - counter
      {
        var dc := connectors[counter];
        accepted := accepts[counter];
        counter := counter + 1;
        var lastDc := !(route.Failover? && counter < |connectors|);
        throws := throws + [dc];
        assert connectors[..counter] == connectors[..counter - 1] + [dc];
        if accepted || lastDc { break; }
      }
    }

    /** The throwing callbacks for routed messages, `http_deliver_sm_callback` and `smpp_deliver_sm_callback`.
        `accepts` tells which connectors would accept the message; `mayRetry` is false when the SMPP server is not
        set, and then none does. */
    method DeliverSm(d: Delivery, rightType: bool, route: RouteType, connectors: seq<string>, accepts: seq<bool>,
                     mayRetry: bool)
      requires Valid() && |connectors| == |accepts| > 0
      modifies this, tracking
      ensures Valid()
      ensures throws == old(throws) + if rightType then connectors[..Tried(route, accepts)] else []
      ensures var o := OutcomeOf(rightType, route, accepts, mayRetry);
              var (t, a) := Settle(maxRetries + 1, old(Tracked()), d.id, o);
              Tracked() == t && calls == old(calls) + CallsOf(a, d.tag)
      ensures var o := OutcomeOf(rightType, route, accepts, mayRetry);
              Booked() == Closed(maxRetries + 1, Taken(old(Booked()), d.id, true), d, o).0
      // acknowledged exactly if a connector it was thrown to accepted, and rejected for good or held as the source says
      ensures var again := mayRetry && old(GetThrowingRetrials(d.id)) < maxRetries;
              && calls == old(calls) + (if rightType && Accepted(route, accepts) then [BasicAck(d.tag)]
                                        else if !rightType || (route.Simple? && !again) then [BasicReject(d.tag, false)]
                                        else [])
              && (d.id in Booked().held <==> rightType && route.Simple? && !accepts[0] && again)
              && (d.id in Booked().held ==> Booked().held[d.id] == d)
    {
      if route.Failover? { FailoverSucceedsIff(accepts, mayRetry); }
      ghost var o := OutcomeOf(rightType, route, accepts, mayRetry);
      ClosedSettles(maxRetries + 1, Booked(), d, o, true);
      TrackedIsBooked();
      IncThrowingRetrials(d.id);
      ClearRequeueTimer(d.id);
      assert Booked() == Taken(old(Booked()), d.id, true);
      if !rightType {
        RejectMessage(d, false);
        TrackedIsBooked();
        return;
      }
      var accepted := TryConnectors(route, connectors, accepts);
      if accepted {
        AckMessage(d);
      } else if route.Simple? {
        ThrowFailed(d, mayRetry);
      }
      TrackedIsBooked();
    }

    /** The callbacks for receipts, `http_dlr_callback` and `smpp_dlr_callback`. The second looks for the message's
        timer under a key it is not stored under, so the timer that fired stays in the dictionary. */
    method DeliverReceipt(d: Delivery, http: bool, accepted: bool, mayRetry: bool)
      requires Valid()
      modifies tracking`throwingRetrials, tracking`requeueTimers, this`calls
      ensures Valid()
      ensures var o := if accepted then Succeeded else if mayRetry then Failed else Refused;
              var (b, a) := Closed(maxRetries + 1, Taken(old(Booked()), d.id, http), d, o);
              Booked() == b && calls == old(calls) + CallsOf(a, d.tag)
      // with no other receipt of the id held, or none left held, that is `Settle`
      ensures http || d.id !in old(Tracked()).timers ==>
                var o := if accepted then Succeeded else if mayRetry then Failed else Refused;
                var (t, a) := Settle(maxRetries + 1, old(Tracked()), d.id, o);
                Tracked() == t && calls == old(calls) + CallsOf(a, d.tag)
      ensures if accepted then calls == old(calls) + [BasicAck(d.tag)]
              else if mayRetry && old(GetThrowingRetrials(d.id)) < maxRetries
              then calls == old(calls) && d.id in Booked().held && Booked().held[d.id] == d
              else calls == old(calls) + [BasicReject(d.tag, false)]
      ensures http ==> (d.id in tracking.requeueTimers <==> d.id in Tracked().timers)
      ensures !http && d.id in old(tracking.requeueTimers) ==> d.id in tracking.requeueTimers
    {
      TrackedIsBooked();
      ghost var o := if accepted then Succeeded else if mayRetry then Failed else Refused;
      if http || d.id !in Booked().held { ClosedSettles(maxRetries + 1, Booked(), d, o, http); }
      IncThrowingRetrials(d.id);
      if http { ClearRequeueTimer(d.id); }
      assert Booked() == Taken(old(Booked()), d.id, http);
      if accepted {
        AckMessage(d);
      } else {
        ThrowFailed(d, mayRetry);
      }
      TrackedIsBooked();
    }
  }

  /** A message that has its id to itself and never meets a failover route on which every connector fails has each
      delivery answered exactly once, by a broker call or by one timer, and is thrown at most `maxRetries + 1` times. */
  lemma EveryThrowSettled(maxRetries: nat, es: seq<Event>, id: Id)
    requires Redelivery.Legal(maxRetries + 1, es) && id in Redelivery.Run(maxRetries + 1, es).messages
    requires forall i :: 0 <= i < |es| ==> !Abandons(es[i], id)
    ensures var m := Redelivery.Run(maxRetries + 1, es).messages[id];
            m.deliveries == m.calls + (if m.phase.Waiting? then 1 else 0) && m.deliveries <= maxRetries + 1
  {
    EveryDeliverySettledOnce(maxRetries + 1, es);
    NeverStuck(maxRetries + 1, es, id);
    var w := Redelivery.Run(maxRetries + 1, es);
    assert Accounted(maxRetries + 1, w.tracker, id, w.messages[id]);
  }
}
