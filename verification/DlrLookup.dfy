/** The consumer of the `dlr.*` queues: it looks a response or a receipt up in Redis, publishes what is
    due, and settles the message with the broker. */
module DlrLookup {
  import opened Basics
  import opened DlrCorrelation
  import Redelivery

  datatype Body =
    | ResponseNotice(status: RespStatus)
    | ReceiptNotice(stat: Stat, details: Details)
    | UnknownRoutingKey

  /** A delivery from the broker. The message id of a response notice is the queue id, that of a receipt
      notice the normalised upstream identifier. */
  datatype Delivery = Delivery(tag: nat, id: Id, body: Body)

  function HandlingOf(receiptOnSuccess: bool, m: Maps, d: Delivery, fault: Fault): Handling {
    match d.body
    case ResponseNotice(st) => OnResponse(receiptOnSuccess, m, d.id, st, fault)
    case ReceiptNotice(stat, details) => OnReceipt(m, d.id, stat, details, fault)
    case UnknownRoutingKey => Handling(m, None, UnknownError)
  }

  /** A missing entry is worth another try only for a receipt, which may have overtaken its response. */
  function OutcomeOf(body: Body, v: Verdict): Redelivery.Outcome {
    match v
    case Done => Redelivery.Succeeded
    case RedisDown => Redelivery.Failed
    case NotFound => if body.ReceiptNotice? then Redelivery.Failed else Redelivery.Refused
    case _ => Redelivery.Refused
  }

  /** What the outcome of a delivery means for the broker: done is acknowledged; a Redis failure, and a receipt that
      finds nothing, are held below the limit; all else is rejected for good. */
  lemma SettledCalls(limit: int, t: Redelivery.Tracker, id: Id, tag: nat, body: Body, v: Verdict)
    ensures var n := if id in t.counts then t.counts[id] + 1 else 1;
            var again := (v.RedisDown? || (v.NotFound? && body.ReceiptNotice?)) && n < limit;
            var (t', a) := Redelivery.Settle(limit, t, id, OutcomeOf(body, v));
            && (id in t'.timers <==> again)
            && Redelivery.CallsOf(a, tag) == if v.Done? then [Redelivery.BasicAck(tag)]
                                             else if again then []
                                             else [Redelivery.BasicReject(tag, false)]
  {
  }

  function ListOf<T>(o: Option<T>): seq<T> { if o.Some? then [o.value] else [] }

  class Lookup {
    const maxRetries: int
    const receiptOnSuccess: bool

    // the two Redis maps
    var dlr: map<Id, Record>
    var links: map<Key, Link>

    var lookupRetrials: map<Id, nat>
    var requeueTimers: map<Id, Delivery>

    // what was handed to the broker, oldest first
    var published: seq<Content>
    var calls: seq<Redelivery.BrokerCall>

    function Stored(): Maps reads this { Maps(dlr, links) }

    function Tracker(): Redelivery.Tracker reads this {
      Redelivery.Tracker(lookupRetrials, requeueTimers.Keys)
    }

    /** A timer requeues the message it is filed under. */
    ghost predicate Valid() reads this {
      forall id :: id in requeueTimers ==> requeueTimers[id].id == id
    }

    constructor (maxRetries: int, receiptOnSuccess: bool)
      ensures this.maxRetries == maxRetries && this.receiptOnSuccess == receiptOnSuccess
      ensures Valid() && Stored() == Start.maps && Tracker() == Redelivery.Start.tracker
      ensures published == [] && calls == []
    {
      this.maxRetries, this.receiptOnSuccess := maxRetries, receiptOnSuccess;
      dlr, links := map[], map[];
      lookupRetrials, requeueTimers := map[], map[];
      published, calls := [], [];
    }

    method RejectAndRequeueMessage(d: Delivery)
      modifies this`requeueTimers
      ensures requeueTimers == if d.id in old(requeueTimers) then old(requeueTimers) else old(requeueTimers)[d.id := d]
    {
      if d.id !in requeueTimers {
        requeueTimers := requeueTimers[d.id := d];
      }
    }

    method RejectMessage(d: Delivery, requeue: bool)
      modifies this`lookupRetrials, this`requeueTimers, this`calls
      ensures lookupRetrials == if requeue then old(lookupRetrials) else old(lookupRetrials) - {d.id}
      ensures requeueTimers == old(requeueTimers) - {d.id}
      ensures calls == old(calls) + [Redelivery.BasicReject(d.tag, requeue)]
    {
      if !requeue && d.id in lookupRetrials {
        lookupRetrials := lookupRetrials - {d.id};
      }
      if d.id in requeueTimers {
        requeueTimers := requeueTimers - {d.id};
      }
      calls := calls + [Redelivery.BasicReject(d.tag, requeue)];
    }

    method AckMessage(d: Delivery)
      modifies this`lookupRetrials, this`requeueTimers, this`calls
      ensures lookupRetrials == old(lookupRetrials) - {d.id}
      ensures requeueTimers == old(requeueTimers) - {d.id}
      ensures calls == old(calls) + [Redelivery.BasicAck(d.tag)]
    {
      if d.id in lookupRetrials {
        lookupRetrials := lookupRetrials - {d.id};
      }
      if d.id in requeueTimers {
        requeueTimers := requeueTimers - {d.id};
      }
      calls := calls + [Redelivery.BasicAck(d.tag)];
    }

    /** The timer set for a held message: back to the queue, keeping its counter. */
    method TimerFired(id: Id)
      requires Valid() && id in requeueTimers
      modifies this`lookupRetrials, this`requeueTimers, this`calls
      ensures Valid() && Tracker() == Redelivery.Tracker(old(lookupRetrials), old(requeueTimers.Keys) - {id})
      ensures calls == old(calls) + [Redelivery.BasicReject(old(requeueTimers[id]).tag, true)]
    {
      RejectMessage(requeueTimers[id], true);
    }

    method TrackRetrial(id: Id)
      modifies this`lookupRetrials
      ensures Tracker() == Redelivery.Counted(old(Tracker()), id)
    {
      if id in lookupRetrials {
        lookupRetrials := lookupRetrials[id := lookupRetrials[id] + 1];
      } else {
        lookupRetrials := lookupRetrials[id := 1];
      }
    }

    /** The body of the `try` of `submit_sm_resp_dlr_callback`. */
    method LookupResponse(id: Id, st: RespStatus, fault: Fault) returns (v: Verdict)
      modifies this`dlr, this`links, this`published
      ensures var h := OnResponse(receiptOnSuccess, old(Stored()), id, st, fault);
              Stored() == h.maps && published == old(published) + ListOf(h.published) && v == h.verdict
    {
      if fault.OnLookup? { return RedisDown; }
      if id !in dlr { return NotFound; }
      match dlr[id] {
        case BadRecord => return MapError;
        case HttpRecord(url, level, httpMethod, connector) =>
          if level == 1 || level == 3 {
            if !ValidMethod(httpMethod) { return UnknownError; }
            published := published + [ToHttp(OfResponse(st), id, url, httpMethod, 1, connector, "", None)];
            if level == 1 || !st.Rok? {
              if fault.OnUpdate? { return RedisDown; }
              dlr := dlr - {id};
            }
          }
          if (level == 2 || level == 3) && st.Rok? {
            if fault.OnUpdate? { return RedisDown; }
            links := links[st.key := Link(id, Httpapi)];
          }
        case SmppsRecord(systemId, envelope, registered) =>
          if (st.Rok? && (registered.OnFailure? || registered.Requested?)) || (!st.Rok? && registered.OnFailure?) {
            if !st.Rok? || (st.Rok? && receiptOnSuccess) {
              published := published + [ToSmpps(OfResponse(st), id, systemId, envelope, None)];
            }
            if st.Rok? {
              if fault.OnUpdate? { return RedisDown; }
              links := links[st.key := Link(id, Smppsapi)];
            }
          }
      }
      v := Done;
    }

    /** The body of the `try` of `deliver_sm_dlr_callback`. */
    method LookupReceipt(key: Key, stat: Stat, d: Details, fault: Fault) returns (v: Verdict)
      modifies this`dlr, this`links, this`published
      ensures var h := OnReceipt(old(Stored()), key, stat, d, fault);
              Stored() == h.maps && published == old(published) + ListOf(h.published) && v == h.verdict
      ensures stat !in {DELIVRD, EXPIRED, DELETED, UNDELIV, REJECTD} ==> Stored() == old(Stored())
    {
      if fault.OnLookup? { return RedisDown; }
      if key !in links { return NotFound; }
      var q := links[key];
      if q.id !in dlr { return NotFound; }
      var record := dlr[q.id];
      var sc := if record.HttpRecord? then Some(Httpapi) else if record.SmppsRecord? then Some(Smppsapi) else None;
      if sc != Some(q.source) { return MapError; }
      if q.source == Httpapi {
        if record.level == 2 || record.level == 3 {
          if !ValidStat(stat) || !ValidMethod(record.httpMethod) { return UnknownError; }
          published := published
            + [ToHttp(OfReceipt(stat), q.id, record.url, record.httpMethod, 2, d.dlrId, key, Some(d))];
          if Final(stat) {
            if fault.OnUpdate? { return RedisDown; }
            dlr := dlr - {q.id};
          }
        }
      } else {
        if (Success(stat) && record.registered.Requested?)
           || (!Success(stat) && (record.registered.Requested? || record.registered.OnFailure?)) {
          if !ValidStat(stat) { return UnknownError; }
          published := published
            + [ToSmpps(OfReceipt(stat), q.id, record.systemId, record.envelope, Some(d.err))];
          if Final(stat) {
            if fault.OnUpdate? { return RedisDown; }
            dlr := dlr - {q.id};
          }
        }
      }
      v := Done;
    }

    /** The `except` and `else` branches that end both handlers. */
    method Conclude(d: Delivery, v: Verdict, retryMissing: bool)
      modifies this`lookupRetrials, this`requeueTimers, this`calls
      requires Valid() && retryMissing == d.body.ReceiptNotice?
      ensures Valid()
      ensures var (t, a) := Redelivery.Dispose(maxRetries, old(Tracker()), d.id, OutcomeOf(d.body, v));
              Tracker() == t && calls == old(calls) + Redelivery.CallsOf(a, d.tag)
    {
      if v.Done? {
        AckMessage(d);
      } else if v.RedisDown? || (v.NotFound? && retryMissing) {
        if d.id in lookupRetrials && lookupRetrials[d.id] < maxRetries {
          RejectAndRequeueMessage(d);
        } else {
          RejectMessage(d, false);
        }
      } else {
        RejectMessage(d, false);
      }
    }

    /** One delivery, from the counter to the settlement: the maps and the publications are those of the
        handler, and the message is disposed of as its outcome says. */
    method Dispatch(d: Delivery, fault: Fault)
      requires Valid()
      modifies this
      ensures Valid()
      ensures var h := HandlingOf(receiptOnSuccess, old(Stored()), d, fault);
              var (t, a) := Redelivery.Settle(maxRetries, old(Tracker()), d.id, OutcomeOf(d.body, h.verdict));
              && Stored() == h.maps
              && published == old(published) + ListOf(h.published)
              && Tracker() == t
              && calls == old(calls) + Redelivery.CallsOf(a, d.tag)
    {
      TrackRetrial(d.id);
      match d.body {
        case ResponseNotice(st) =>
          var v := LookupResponse(d.id, st, fault);
          Conclude(d, v, false);
        case ReceiptNotice(stat, details) =>
          var v := LookupReceipt(d.id, stat, details, fault);
          Conclude(d, v, true);
        case UnknownRoutingKey =>
          RejectMessage(d, false);
      }
    }
  }
}
