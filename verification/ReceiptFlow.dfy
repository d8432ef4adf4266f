/** The parts of the receipt path put together: identifiers as the upstream centre writes them, receipts that overtake
    the response they belong to, and submissions that are retried after an error. */
module ReceiptFlow {
  import opened Basics
  import opened DlrCorrelation
  import DlrLookup
  import MessageIds
  import Redelivery
  import SubmitListener

  /** A client's submission, the response that names the message `response` and the receipt that names it `receipt`: if
      both write the same positive number, in the bases the connector is configured for, the client gets its receipt,
      as long as no event in between may have closed the record or rebound the identifier. */
  lemma ReceiptInAnyBaseReachesSender(cfg: bool, es: seq<Event>, j: nat, a: nat, b: nat,
                                      bases: int, n: nat, response: string, receipt: string)
    requires bases in {0, 1, 2} && MessageIds.Writes(bases, n, response, receipt)
    requires Fresh(es) && b < |es| && Open(es, j, b) && Named(es, j, a, b, MessageIds.ResponseKey(response))
    requires es[b].Receipt? && es[b].key == MessageIds.ReceiptKey(bases, true, receipt) && !es[b].fault.OnLookup?
    ensures Published(cfg, es, b) == Expected(es[j].request, es[j].id, es[b].key, es[b].stat, es[b].details)
  {
    MessageIds.KeysMeet(bases, n, response, receipt);
    ReceiptReachesSender(cfg, es, j, a, b, MessageIds.ResponseKey(response));
  }

  // The deliveries of one receipt notice

  datatype End = Acked(deliveries: nat) | Dropped(deliveries: nat) | Pending

  /** What a notice published over its deliveries, and how it ended. */
  datatype Course = Course(published: seq<Content>, end: End)

  /** A receipt notice handled again and again from its (n+1)-th delivery on. At delivery i+1 Redis and the submissions
      are in `states[i]`, and `faults[i]` is what befalls Redis; `limit` is `dlr_lookup_max_retries`. */
  function Deliveries(limit: int, states: seq<State>, faults: seq<Fault>, key: Key, stat: Stat, d: Details,
                      t: Redelivery.Tracker, n: nat): Course
    requires n <= |states| == |faults|
    decreases |states| - n
  {
    if n == |states| then Course([], Pending)
    else
      var h := OnReceipt(states[n].maps, key, stat, d, faults[n]);
      var o := DlrLookup.OutcomeOf(DlrLookup.ReceiptNotice(stat, d), h.verdict);
      var (after, action) := Redelivery.Settle(limit, t, key, o);
      var published := DlrLookup.ListOf(h.published);
      match action
      case Ack => Course(published, Acked(n + 1))
      case Hold =>
        var fired := Redelivery.Tracker(after.counts, after.timers - {key});
        var rest := Deliveries(limit, states, faults, key, stat, d, fired, n + 1);
        Course(published + rest.published, rest.end)
      case _ => Course(published, Dropped(n + 1))
  }

  predicate Missing(s: State, key: Key) { key !in s.maps.links || s.maps.links[key].id !in s.maps.dlr }

  /** The key leads nowhere yet or any more, or to message `id`, submitted with request `q`. */
  ghost predicate Leads(s: State, q: Request, id: Id, key: Key) {
    Missing(s, key) || (Consistent(s) && Tied(s, id, key) && s.asked[id] == q)
  }

  /** What one delivery comes to: the lookup fails or finds nothing; the receipt cannot be made; it is published but the
      deletion that should follow fails; or all is done. */
  datatype Try = Misses | Refused | Sticks | Settles

  /** A status that no receipt can be made of. */
  predicate Unknown(stat: Stat) { stat.OtherStat? && !("ESME_" <= stat.text) }

  predicate Refuses(q: Request, stat: Stat) {
    match q
    case HttpRequest(_, _, httpMethod, _) => httpMethod !in {"GET", "POST"} || Unknown(stat)
    case SmppsRequest(_, _, registered) => Entitled(false, registered, OfReceipt(stat)) && Unknown(stat)
  }

  function TryOf(s: State, fault: Fault, q: Request, key: Key, stat: Stat, due: bool): Try {
    if fault.OnLookup? || Missing(s, key) then Misses
    else if Refuses(q, stat) then Refused
    else if fault.OnUpdate? && Final(stat) && due then Sticks
    else Settles
  }

  lemma TryIs(s: State, fault: Fault, q: Request, id: Id, key: Key, stat: Stat, d: Details)
    requires Leads(s, q, id, key)
    ensures var h, due := OnReceipt(s.maps, key, stat, d, fault), Expected(q, id, key, stat, d);
            match TryOf(s, fault, q, key, stat, due.Some?)
            case Misses => (h.verdict.NotFound? || h.verdict.RedisDown?) && h.published.None?
            case Refused => h.verdict.UnknownError? && h.published.None?
            case Sticks => h.verdict.RedisDown? && h.published == due
            case Settles => h.verdict.Done? && h.published == due
  {
    if !Missing(s, key) {
      assert LinkAgrees(s.asked, s.maps.links[key]);
      assert RecordFor(s.asked[id]) == Some(s.maps.dlr[id]);
    }
  }

  /** How often a notice publishes, and how it ends, told from its tries alone. */
  function Tally(limit: int, tries: seq<Try>, n: nat): (nat, End)
    requires n <= |tries|
    decreases |tries| - n
  {
    if n == |tries| then (0, Pending)
    else
      match tries[n]
      case Settles => (1, Acked(n + 1))
      case Refused => (0, Dropped(n + 1))
      case _ =>
        var one := if tries[n].Sticks? then 1 else 0;
        if n + 1 < limit then
          var (more, end) := Tally(limit, tries, n + 1);
          (one + more, end)
        else (one, Dropped(n + 1))
  }

  function Copies(c: Content, n: nat): seq<Content> { if n == 0 then [] else [c] + Copies(c, n - 1) }

  function CopiesOf(due: Option<Content>, n: nat): seq<Content> { if due.Some? then Copies(due.value, n) else [] }

  /** The tracker of a message that was delivered `n` times. */
  predicate DeliveredTimes(t: Redelivery.Tracker, key: Key, n: nat) {
    if n == 0 then key !in t.counts else key in t.counts && t.counts[key] == n
  }

  /** The tracker when a held message has been returned to the queue. */
  function Retried(t: Redelivery.Tracker, key: Key): Redelivery.Tracker {
    Redelivery.Tracker(Redelivery.Counted(t, key).counts, t.timers - {key})
  }

  lemma SettledAs(limit: int, t: Redelivery.Tracker, key: Key, n: nat, o: Redelivery.Outcome)
    requires DeliveredTimes(t, key, n)
    ensures var (after, action) := Redelivery.Settle(limit, t, key, o);
            match o
            case Succeeded => action.Ack?
            case Refused => action.Drop?
            case Failed => if n + 1 < limit then action.Hold? && after.timers - {key} == t.timers - {key} &&
                                                 after.counts == Retried(t, key).counts
                           else action.Drop?
            case Abandoned => action.Leave?
    ensures DeliveredTimes(Retried(t, key), key, n + 1)
  {
    assert (t.timers + {key}) - {key} == t.timers - {key};
  }

  ghost predicate LeadsAt(states: seq<State>, q: Request, id: Id, key: Key, i: nat)
    requires i < |states|
  {
    Leads(states[i], q, id, key)
  }

  /** The try made at delivery i+1. */
  ghost predicate TriedAt(states: seq<State>, faults: seq<Fault>, q: Request, id: Id, key: Key, stat: Stat, due: bool,
                          tries: seq<Try>, i: nat)
    requires i < |states| == |faults| == |tries|
  {
    LeadsAt(states, q, id, key, i) && tries[i] == TryOf(states[i], faults[i], q, key, stat, due)
  }

  /** Delivery n+1 put before the rest of a course, which is made only if the limit allows it. */
  function Joined(limit: int, y: Try, due: Option<Content>, rest: Course, n: nat): Course {
    match y
    case Misses => if n + 1 < limit then rest else Course([], Dropped(n + 1))
    case Refused => Course([], Dropped(n + 1))
    case Sticks =>
      var published := DlrLookup.ListOf(due);
      if n + 1 < limit then Course(published + rest.published, rest.end) else Course(published, Dropped(n + 1))
    case Settles => Course(DlrLookup.ListOf(due), Acked(n + 1))
  }

  lemma OneDelivery(limit: int, states: seq<State>, faults: seq<Fault>, q: Request, id: Id, key: Key, stat: Stat,
                    d: Details, t: Redelivery.Tracker, n: nat)
    requires n < |states| == |faults| && LeadsAt(states, q, id, key, n) && DeliveredTimes(t, key, n)
    ensures var due := Expected(q, id, key, stat, d);
            var course := Deliveries(limit, states, faults, key, stat, d, t, n);
            var rest := Deliveries(limit, states, faults, key, stat, d, Retried(t, key), n + 1);
            course == Joined(limit, TryOf(states[n], faults[n], q, key, stat, due.Some?), due, rest, n)
  {
    TryIs(states[n], faults[n], q, id, key, stat, d);
    var h := OnReceipt(states[n].maps, key, stat, d, faults[n]);
    SettledAs(limit, t, key, n, DlrLookup.OutcomeOf(DlrLookup.ReceiptNotice(stat, d), h.verdict));
    var rest := Deliveries(limit, states, faults, key, stat, d, Retried(t, key), n + 1);
    assert [] + rest.published == rest.published;
  }

  lemma JoinedIsTally(limit: int, tries: seq<Try>, due: Option<Content>, rest: Course, n: nat)
    requires n < |tries| && (tries[n].Sticks? ==> due.Some?)
    requires var (more, end) := Tally(limit, tries, n + 1);
             rest == Course(CopiesOf(due, more), end)
    ensures var (published, end) := Tally(limit, tries, n);
            Joined(limit, tries[n], due, rest, n) == Course(CopiesOf(due, published), end)
  {
    CopiesStep(due, 0);
    CopiesStep(due, Tally(limit, tries, n + 1).0);
  }

  /** Whatever befalls Redis at each delivery, what is published and how the notice ends is the tally of its tries. */
  lemma {:induction false} CourseIsTally(limit: int, states: seq<State>, faults: seq<Fault>, q: Request, id: Id,
                                         key: Key, stat: Stat, d: Details, t: Redelivery.Tracker, tries: seq<Try>,
                                         n: nat)
    requires n <= |states| == |faults| == |tries| && DeliveredTimes(t, key, n)
    requires var due := Expected(q, id, key, stat, d).Some?;
             forall i :: 0 <= i < |states| ==> TriedAt(states, faults, q, id, key, stat, due, tries, i)
    ensures var (published, end) := Tally(limit, tries, n);
            Deliveries(limit, states, faults, key, stat, d, t, n) ==
            Course(CopiesOf(Expected(q, id, key, stat, d), published), end)
    decreases |states| - n
  {
    var due := Expected(q, id, key, stat, d);
    if n < |states| {
      assert TriedAt(states, faults, q, id, key, stat, due.Some?, tries, n);
      OneDelivery(limit, states, faults, q, id, key, stat, d, t, n);
      SettledAs(limit, t, key, n, Redelivery.Failed);
      CourseIsTally(limit, states, faults, q, id, key, stat, d, Retried(t, key), tries, n + 1);
      JoinedIsTally(limit, tries, due, Deliveries(limit, states, faults, key, stat, d, Retried(t, key), n + 1), n);
    }
  }

  lemma CopiesStep(due: Option<Content>, n: nat)
    ensures CopiesOf(due, 0) == []
    ensures due.Some? ==> CopiesOf(due, n + 1) == [due.value] + CopiesOf(due, n)
  {
  }

  // What the tally comes to

  /** The number of deliveries made: up to the first that settles or refuses the notice, or to the limit. */
  function Made(limit: int, tries: seq<Try>, n: nat): (m: nat)
    requires n <= |tries|
    ensures n <= m <= |tries| && (n < Redelivery.Most(limit) ==> m <= Redelivery.Most(limit))
    ensures forall i :: n <= i < m - 1 ==> !tries[i].Settles? && !tries[i].Refused?
    ensures m < |tries| && n < Redelivery.Most(limit) ==>
              m > n && (m == Redelivery.Most(limit) || tries[m - 1].Settles? || tries[m - 1].Refused?)
    decreases |tries| - n
  {
    if n == |tries| then n
    else if tries[n].Settles? || tries[n].Refused? || n + 1 >= limit then n + 1
    else Made(limit, tries, n + 1)
  }

  predicate Publishes(tries: seq<Try>, i: nat)
    requires i < |tries|
  {
    tries[i].Sticks? || tries[i].Settles?
  }

  function Count(tries: seq<Try>, n: nat, m: nat): (c: nat)
    requires n <= m <= |tries|
    ensures c <= m - n
    decreases m - n
  {
    if n == m then 0 else (if Publishes(tries, n) then 1 else 0) + Count(tries, n + 1, m)
  }

  lemma {:induction false} TallyIs(limit: int, tries: seq<Try>, n: nat)
    requires n <= |tries| && n < Redelivery.Most(limit)
    ensures var (published, end) := Tally(limit, tries, n);
            var m := Made(limit, tries, n);
            && published == Count(tries, n, m)
            && end == if m > n && tries[m - 1].Settles? then Acked(m)
                      else if m > n && (tries[m - 1].Refused? || m == Redelivery.Most(limit)) then Dropped(m)
                      else Pending
    decreases |tries| - n
  {
    if n < |tries| {
      if (tries[n].Misses? || tries[n].Sticks?) && n + 1 < limit {
        TallyIs(limit, tries, n + 1);
      } else {
        assert Count(tries, n + 1, n + 1) == 0;
      }
    }
  }

  lemma {:induction false} CountPositive(tries: seq<Try>, n: nat, m: nat)
    requires n <= m <= |tries|
    ensures Count(tries, n, m) > 0 <==> exists i :: n <= i < m && Publishes(tries, i)
    decreases m - n
  {
    if n < m { CountPositive(tries, n + 1, m); }
  }

  lemma {:induction false} CountTwice(tries: seq<Try>, n: nat, m: nat)
    requires n <= m <= |tries|
    ensures Count(tries, n, m) > 1 <==> exists i, j :: n <= i < j < m && Publishes(tries, i) && Publishes(tries, j)
    decreases m - n
  {
    if n < m {
      CountTwice(tries, n + 1, m);
      CountPositive(tries, n + 1, m);
    }
  }

  lemma {:induction false} CopiesAre(c: Content, n: nat)
    ensures |Copies(c, n)| == n && forall x :: x in Copies(c, n) ==> x == c
  {
    if n > 0 { CopiesAre(c, n - 1); }
  }

  /** The tries of a notice. */
  function TriesOf(states: seq<State>, faults: seq<Fault>, q: Request, key: Key, stat: Stat, due: bool): seq<Try>
    requires |states| == |faults|
  {
    seq(|states|, i requires 0 <= i < |states| => TryOf(states[i], faults[i], q, key, stat, due))
  }

  lemma CourseOf(limit: int, states: seq<State>, faults: seq<Fault>, q: Request, id: Id, key: Key, stat: Stat,
                 d: Details, t: Redelivery.Tracker)
    requires |states| == |faults| && key !in t.counts
    requires forall i :: 0 <= i < |states| ==> LeadsAt(states, q, id, key, i)
    ensures var due := Expected(q, id, key, stat, d);
            var tries := TriesOf(states, faults, q, key, stat, due.Some?);
            var m := Made(limit, tries, 0);
            var course := Deliveries(limit, states, faults, key, stat, d, t, 0);
            && course.published == CopiesOf(due, Count(tries, 0, m))
            && course.end == if m > 0 && tries[m - 1].Settles? then Acked(m)
                             else if m > 0 && (tries[m - 1].Refused? || m == Redelivery.Most(limit)) then Dropped(m)
                             else Pending
  {
    var due := Expected(q, id, key, stat, d).Some?;
    var tries := TriesOf(states, faults, q, key, stat, due);
    forall i | 0 <= i < |states| ensures TriedAt(states, faults, q, id, key, stat, due, tries, i) {
      assert LeadsAt(states, q, id, key, i);
    }
    CourseIsTally(limit, states, faults, q, id, key, stat, d, t, tries, 0);
    TallyIs(limit, tries, 0);
  }

  /** Redis answers the lookup of delivery i+1, and the key leads to a record. */
  predicate Found(states: seq<State>, faults: seq<Fault>, key: Key, i: nat)
    requires i < |states| == |faults|
  {
    !faults[i].OnLookup? && !Missing(states[i], key)
  }

  /** Every deletion asked for in the first `n` deliveries fails. */
  predicate DeletionsFail(states: seq<State>, faults: seq<Fault>, key: Key, n: nat)
    requires n <= |states| == |faults|
  {
    forall k :: 0 <= k < n && Found(states, faults, key, k) ==> faults[k].OnUpdate?
  }

  /** The deliveries made when a receipt is due: delivery i+1 is one of them exactly if the limit allows it and no
      delivery before found the record and deleted it. */
  lemma MadeIff(limit: int, states: seq<State>, faults: seq<Fault>, q: Request, id: Id, key: Key, stat: Stat,
                d: Details, i: nat)
    requires i < |states| == |faults| && Expected(q, id, key, stat, d).Some?
    ensures i < Made(limit, TriesOf(states, faults, q, key, stat, true), 0) <==>
            && i < Redelivery.Most(limit)
            && if Final(stat) then DeletionsFail(states, faults, key, i)
               else forall k :: 0 <= k < i ==> !Found(states, faults, key, k)
  {
    var tries := TriesOf(states, faults, q, key, stat, true);
    forall k | 0 <= k < |states|
      ensures !tries[k].Refused?
      ensures tries[k].Settles? <==> Found(states, faults, key, k) && !(Final(stat) && faults[k].OnUpdate?)
    {
    }
  }

  lemma PublishedByThen(limit: int, tries: seq<Try>, i: nat)
    requires i < |tries| && i < Redelivery.Most(limit) && Publishes(tries, i)
    requires forall k :: 0 <= k < |tries| ==> !tries[k].Refused?
    ensures Count(tries, 0, Made(limit, tries, 0)) > 0
  {
    var m := Made(limit, tries, 0);
    CountPositive(tries, 0, m);
    if m <= i { assert Publishes(tries, m - 1); }
  }

  /** A receipt that is due gets through, whenever its response comes and whatever befalls Redis, exactly when one of
      the first max(1, `dlr_lookup_max_retries`) deliveries finds the record; and it is published at most that often. */
  lemma ReceiptGetsThroughIff(limit: int, states: seq<State>, faults: seq<Fault>, q: Request, id: Id, key: Key,
                              stat: Stat, d: Details, t: Redelivery.Tracker)
    requires |states| == |faults| && key !in t.counts
    requires forall i :: 0 <= i < |states| ==> LeadsAt(states, q, id, key, i)
    requires Expected(q, id, key, stat, d).Some?
    ensures var published := Deliveries(limit, states, faults, key, stat, d, t, 0).published;
            && |published| <= Redelivery.Most(limit)
            && (forall c :: c in published ==> Some(c) == Expected(q, id, key, stat, d))
            && (published != [] <==>
                exists i :: 0 <= i < |states| && i < Redelivery.Most(limit) && Found(states, faults, key, i))
  {
    var tries := TriesOf(states, faults, q, key, stat, true);
    CourseOf(limit, states, faults, q, id, key, stat, d, t);
    CopiesAre(Expected(q, id, key, stat, d).value, Count(tries, 0, Made(limit, tries, 0)));
    CountedIffFound(limit, states, faults, q, id, key, stat, d);
  }

  lemma CountedIffFound(limit: int, states: seq<State>, faults: seq<Fault>, q: Request, id: Id, key: Key, stat: Stat,
                        d: Details)
    requires |states| == |faults| && Expected(q, id, key, stat, d).Some?
    ensures var tries := TriesOf(states, faults, q, key, stat, true);
            && Count(tries, 0, Made(limit, tries, 0)) <= Redelivery.Most(limit)
            && (Count(tries, 0, Made(limit, tries, 0)) > 0 <==>
                exists i :: 0 <= i < |states| && i < Redelivery.Most(limit) && Found(states, faults, key, i))
  {
    var tries := TriesOf(states, faults, q, key, stat, true);
    CountPositive(tries, 0, Made(limit, tries, 0));
    forall i | 0 <= i < |states| ensures Publishes(tries, i) <==> Found(states, faults, key, i) {
      FoundPublishes(states, faults, q, id, key, stat, d, i);
    }
    if i :| 0 <= i < |states| && i < Redelivery.Most(limit) && Publishes(tries, i) {
      PublishedByThen(limit, tries, i);
    }
  }

  /** It is published again exactly when it is final and two of these deliveries find the record, every deletion up to
      the second having failed. */
  lemma ReceiptRepeatedIff(limit: int, states: seq<State>, faults: seq<Fault>, q: Request, id: Id, key: Key,
                           stat: Stat, d: Details, t: Redelivery.Tracker)
    requires |states| == |faults| && key !in t.counts
    requires forall i :: 0 <= i < |states| ==> LeadsAt(states, q, id, key, i)
    requires Expected(q, id, key, stat, d).Some?
    ensures |Deliveries(limit, states, faults, key, stat, d, t, 0).published| > 1 <==>
            && Final(stat)
            && exists i, j :: 0 <= i < j < |states| && j < Redelivery.Most(limit) &&
                 Found(states, faults, key, i) && Found(states, faults, key, j) &&
                 DeletionsFail(states, faults, key, j)
  {
    var tries := TriesOf(states, faults, q, key, stat, true);
    var m := Made(limit, tries, 0);
    CourseOf(limit, states, faults, q, id, key, stat, d, t);
    CopiesAre(Expected(q, id, key, stat, d).value, Count(tries, 0, m));
    CountTwice(tries, 0, m);
    forall i | 0 <= i < |states| ensures Publishes(tries, i) <==> Found(states, faults, key, i) {
      FoundPublishes(states, faults, q, id, key, stat, d, i);
    }
    if i, j :| 0 <= i < j < m && Publishes(tries, i) && Publishes(tries, j) {
      MadeIff(limit, states, faults, q, id, key, stat, d, j);
      assert Found(states, faults, key, i);
    }
    if i, j :| 0 <= i < j < |states| && j < Redelivery.Most(limit) && Final(stat) &&
               Found(states, faults, key, i) && Found(states, faults, key, j) && DeletionsFail(states, faults, key, j) {
      MadeIff(limit, states, faults, q, id, key, stat, d, j);
      assert Publishes(tries, i) && Publishes(tries, j);
    }
  }

  lemma FoundPublishes(states: seq<State>, faults: seq<Fault>, q: Request, id: Id, key: Key, stat: Stat, d: Details,
                       i: nat)
    requires i < |states| == |faults| && Expected(q, id, key, stat, d).Some?
    ensures Publishes(TriesOf(states, faults, q, key, stat, true), i) <==> Found(states, faults, key, i)
  {
  }

  lemma {:induction false} FirstSettles(limit: int, tries: seq<Try>, k: nat, n: nat)
    requires n <= k < |tries| && n < Redelivery.Most(limit)
    requires tries[k].Settles? && forall i :: n <= i < k ==> tries[i].Misses?
    ensures Tally(limit, tries, n) ==
            if k < Redelivery.Most(limit) then (1, Acked(k + 1)) else (0, Dropped(Redelivery.Most(limit)))
    decreases k - n
  {
    if n < k && n + 1 < limit { FirstSettles(limit, tries, k, n + 1); }
  }

  /** A receipt that overtakes its response: the first delivery that finds the record is the (k+1)-th, and its deletion
      does not fail. It gets through there, and once, exactly when that is one of the first
      max(1, `dlr_lookup_max_retries`); otherwise it is dropped at the last of these. */
  lemma OvertakingReceipt(limit: int, states: seq<State>, faults: seq<Fault>, q: Request, id: Id, key: Key, stat: Stat,
                          d: Details, t: Redelivery.Tracker, k: nat)
    requires k < |states| == |faults| && key !in t.counts && !Refuses(q, stat)
    requires forall i :: 0 <= i < |states| ==> LeadsAt(states, q, id, key, i)
    requires forall i :: 0 <= i < k ==> !Found(states, faults, key, i)
    requires Found(states, faults, key, k) && !(faults[k].OnUpdate? && Final(stat))
    ensures Deliveries(limit, states, faults, key, stat, d, t, 0) ==
            if k < Redelivery.Most(limit) then Course(DlrLookup.ListOf(Expected(q, id, key, stat, d)), Acked(k + 1))
            else Course([], Dropped(Redelivery.Most(limit)))
  {
    var due := Expected(q, id, key, stat, d);
    var tries := TriesOf(states, faults, q, key, stat, due.Some?);
    forall i | 0 <= i < |states| ensures TriedAt(states, faults, q, id, key, stat, due.Some?, tries, i) {
      assert LeadsAt(states, q, id, key, i);
    }
    forall i | 0 <= i < k ensures tries[i].Misses? { assert !Found(states, faults, key, i); }
    CourseIsTally(limit, states, faults, q, id, key, stat, d, t, tries, 0);
    FirstSettles(limit, tries, k, 0);
    CopiesStep(due, 0);
  }

  // Submissions retried after an error

  /** Who still hears of a message after an error response to it. */
  predicate HearsAfterError(q: Request) { q.SmppsRequest? || q.level == 2 }

  /** The error takes the record away exactly from an HTTP client at level 1 or 3 with a valid method, who is told. */
  lemma ErrorKeepsRecordIff(cfg: bool, s: State, id: Id, name: string)
    requires Consistent(s) && id in s.maps.dlr
    ensures var q, h := s.asked[id], Handle(cfg, s, Response(id, EsmeError(name), NoFault));
            && (id !in h.maps.dlr <==> q.HttpRequest? && q.level in {1, 3} && q.httpMethod in {"GET", "POST"})
            && (id !in h.maps.dlr ==> h.published.Some? && h.published.value.status == OfResponse(EsmeError(name)))
  {
    assert RecordFor(s.asked[id]) == Some(s.maps.dlr[id]);
  }

  lemma PublishedMethodIsValid(cfg: bool, s: State, e: Event)
    ensures var p := Handle(cfg, s, e).published;
            p.Some? && p.value.ToHttp? ==> ValidMethod(p.value.httpMethod)
  {
  }

  /** To everyone else the error is the last word, or they hear nothing at all. */
  lemma SilentAfterError(cfg: bool, es: seq<Event>, j: nat, i: nat, k: nat, name: string)
    requires Fresh(es) && j < i < k < |es| && es[j].Submit? && !HearsAfterError(es[j].request)
    requires es[i] == Response(es[j].id, EsmeError(name), NoFault)
    ensures !TellsOf(cfg, es, k, es[j].id)
  {
    var id, q := es[j].id, es[j].request;
    RecordThereIff(cfg, es, j, i);
    RecordThereIff(cfg, es, j, k);
    StepOf(cfg, es, k);
    PublishesForLiveRecords(cfg, Run(cfg, es[..k]), es[k]);
    PublishedMethodIsValid(cfg, Run(cfg, es[..k]), es[k]);
    if q.level in {1, 3} && q.httpMethod in {"GET", "POST"} { assert ClosesAt(cfg, es, i, id); }
  }

  /** After an error the retry that succeeds leads its upstream identifier to the message exactly for those who still
      hear. */
  lemma RetryTiesIff(cfg: bool, es: seq<Event>, j: nat, i: nat, a: nat, name: string, key: Key)
    requires Fresh(es) && i < a < |es| && Open(es, j, i) && es[i] == Response(es[j].id, EsmeError(name), NoFault)
    requires forall k :: i < k < a ==> !MayClose(es, k, es[j].id, es[j].request)
    requires Names(es[a], es[j].id, key)
    ensures Tied(Run(cfg, es[..a + 1]), es[j].id, key) <==> HearsAfterError(es[j].request)
  {
    if HearsAfterError(es[j].request) {
      assert Open(es, j, a + 1);
      NamedLeads(cfg, es, j, a, a + 1, key);
    } else {
      NotLedTo(cfg, es, j, i, a, name, key);
    }
  }

  lemma NotLedTo(cfg: bool, es: seq<Event>, j: nat, i: nat, a: nat, name: string, key: Key)
    requires Fresh(es) && j < i < a < |es| && es[j].Submit? && !HearsAfterError(es[j].request)
    requires es[i] == Response(es[j].id, EsmeError(name), NoFault) && Names(es[a], es[j].id, key)
    ensures !Tied(Run(cfg, es[..a + 1]), es[j].id, key)
  {
    if es[j].request.level in {1, 3} && es[j].request.httpMethod in {"GET", "POST"} {
      GoneAfterError(cfg, es, j, i, a + 1, name);
    } else {
      NeverLedTo(cfg, es, j, a + 1, key);
    }
  }

  lemma GoneAfterError(cfg: bool, es: seq<Event>, j: nat, i: nat, n: nat, name: string)
    requires Fresh(es) && j < i < n <= |es| && es[j].Submit? && es[i] == Response(es[j].id, EsmeError(name), NoFault)
    requires var q := es[j].request; q.HttpRequest? && q.level in {1, 3} && q.httpMethod in {"GET", "POST"}
    ensures es[j].id !in Run(cfg, es[..n]).maps.dlr
  {
    RecordThereIff(cfg, es, j, i);
    RecordThereIff(cfg, es, j, n);
    assert ClosesAt(cfg, es, i, es[j].id);
  }

  lemma NeverLedTo(cfg: bool, es: seq<Event>, j: nat, n: nat, key: Key)
    requires Fresh(es) && j < n <= |es| && es[j].Submit? && !CanBeLedTo(es[j].request)
    ensures !Tied(Run(cfg, es[..n]), es[j].id, key)
  {
    if Tied(Run(cfg, es[..n]), es[j].id, key) {
      var k := LinkWasTied(cfg, es, n, key);
      TyingCanBeLedTo(cfg, es, j, k, key);
    }
  }

  lemma TyingCanBeLedTo(cfg: bool, es: seq<Event>, j: nat, k: nat, key: Key)
    requires Fresh(es) && j < |es| && k < |es| && es[j].Submit? && TiesKeyAt(cfg, es, k, key) && es[k].id == es[j].id
    ensures CanBeLedTo(es[j].request)
  {
    RunIsConsistent(cfg, es[..k]);
    var j' := AskedBySubmission(cfg, es[..k], es[j].id);
    assert j' == j;
  }

  /** The notice the submit listener sends for an answered delivery; `key` is the upstream identifier of a success. */
  function NoticeOf(id: Id, a: SubmitListener.Attempt, key: Key): Event
    requires a.Answered?
  {
    Response(id, if a.ok then Rok(key) else EsmeError(a.status), NoFault)
  }

  /** The listener, after the run `ls`, has the message answered with an error it retries. */
  predicate AnsweredAndRetried(lcfg: SubmitListener.Config, ls: seq<SubmitListener.Event>, id: Id, name: string) {
    && SubmitListener.Legal(lcfg, ls)
    && var w := SubmitListener.Run(lcfg, ls);
       && SubmitListener.Enabled(w, SubmitListener.Deliver(id, SubmitListener.Answered(false, name)))
       && name in lcfg.retrials && w.messages[id].deliveries + 1 < lcfg.retrials[name].count
  }

  predicate TellsOf(cfg: bool, es: seq<Event>, k: nat, id: Id)
    requires k < |es|
  {
    Published(cfg, es, k).Some? && Published(cfg, es, k).value.id == id
  }

  /** A submission is answered with an error and goes back to the queue, and the retry is answered with success. Its
      client hears of the delivery exactly if it sent over SMPP or asked for level 2: then the receipt at step `b`
      brings what is due, and any other client is told nothing after the error. */
  lemma RetriedSubmission(lcfg: SubmitListener.Config, ls: seq<SubmitListener.Event>, name: string,
                          cfg: bool, es: seq<Event>, j: nat, i: nat, a: nat, b: nat, key: Key)
    requires Fresh(es) && i < a < b < |es| && Open(es, j, i) && AnsweredAndRetried(lcfg, ls, es[j].id, name)
    requires es[i] == NoticeOf(es[j].id, SubmitListener.Answered(false, name), key)
    requires es[a] == NoticeOf(es[j].id, SubmitListener.Answered(true, "ESME_ROK"), key)
    requires forall k :: i < k < b && k != a ==> !MayClose(es, k, es[j].id, es[j].request)
    requires forall k :: a < k < b ==> !Rebinds(es[k], es[j].id, key)
    requires es[b].Receipt? && es[b].key == key && !es[b].fault.OnLookup?
    ensures var failed := SubmitListener.Deliver(es[j].id, SubmitListener.Answered(false, name));
            !SubmitListener.Next(lcfg, SubmitListener.Run(lcfg, ls), failed).messages[es[j].id].phase.Done?
    ensures HearsAfterError(es[j].request) ==>
              Published(cfg, es, b) == Expected(es[j].request, es[j].id, key, es[b].stat, es[b].details)
    ensures !HearsAfterError(es[j].request) ==> forall k :: i < k < |es| ==> !TellsOf(cfg, es, k, es[j].id)
  {
    SubmitListener.RetriedIff(lcfg, ls, es[j].id, false, name);
    if HearsAfterError(es[j].request) {
      assert !MayClose(es, i, es[j].id, es[j].request) && !MayClose(es, a, es[j].id, es[j].request);
      assert Open(es, j, b) && Named(es, j, a, b, key);
      ReceiptReachesSender(cfg, es, j, a, b, key);
    } else {
      forall k | i < k < |es| ensures !TellsOf(cfg, es, k, es[j].id) {
        SilentAfterError(cfg, es, j, i, k, name);
      }
    }
  }
}
