/** Delivery-receipt correlation. Two Redis maps tie an upstream receipt to the client who asked for it:
    `dlr:<queue id>` holds what the client asked for, `queue-msgid:<smpp id>` leads from the id the
    upstream centre answered with back to the queue id. This module gives the effect of every step on
    the two maps as functions, and proves what holds over whole runs. */
module DlrCorrelation {
  import opened Basics

  type Id = string

  /** The identifier the upstream centre uses, after normalisation. */
  type Key = string

  /** The registered_delivery field of a submit_sm (section 5.2.17 of SMPP v3.4). */
  datatype Registered = NotRequested | Requested | OnFailure

  datatype Source = Httpapi | Smppsapi

  /** The addressing a receipt is sent back with. */
  datatype Envelope = Envelope(source: string, sourceTon: string, sourceNpi: string,
                               destination: string, destTon: string, destNpi: string, subDate: string)

  /** What a client submitted, as far as receipts are concerned. */
  datatype Request =
    | HttpRequest(url: Option<string>, level: int, httpMethod: string, connector: string)
    | SmppsRequest(systemId: string, envelope: Envelope, registered: Registered)

  /** A `dlr:` hash. `BadRecord` is a hash whose `sc` field names no known source. */
  datatype Record =
    | HttpRecord(url: string, level: int, httpMethod: string, connector: string)
    | SmppsRecord(systemId: string, envelope: Envelope, registered: Registered)
    | BadRecord

  /** A `queue-msgid:` hash. */
  datatype Link = Link(id: Id, source: Source)

  datatype Maps = Maps(dlr: map<Id, Record>, links: map<Key, Link>)

  /** Status of a submit_sm_resp; ESME_ROK comes with the upstream identifier. */
  datatype RespStatus = Rok(key: Key) | EsmeError(name: string)

  /** The `stat` of a receipt. `OtherStat` is any text outside the table the receipt contents accept. */
  datatype Stat = DELIVRD | EXPIRED | DELETED | UNDELIV | REJECTD | ACCEPTD | UNKNOWN | OtherStat(text: string)

  datatype Status = OfResponse(resp: RespStatus) | OfReceipt(stat: Stat)

  /** The remaining fields of a receipt. */
  datatype Details = Details(dlrId: string, sub: string, dlvrd: string, sdate: string, ddate: string,
                             err: string, text: string)

  /** A receipt published for the throwers. */
  datatype Content =
    | ToHttp(status: Status, id: Id, url: string, httpMethod: string, level: int, connector: string,
             smscId: Key, details: Option<Details>)
    | ToSmpps(status: Status, id: Id, systemId: string, envelope: Envelope, err: Option<string>)

  /** How a handler ends: the `else` branch of its `try`, or one of the `except` branches. */
  datatype Verdict = Done | NotFound | MapError | RedisDown | UnknownError

  /** Where, if anywhere, Redis fails while a handler runs: at its first command, or at the write that
      follows the publication. */
  datatype Fault = NoFault | OnLookup | OnUpdate

  datatype Handling = Handling(maps: Maps, published: Option<Content>, verdict: Verdict)

  predicate ValidStat(stat: Stat) {
    stat.OtherStat? ==> |stat.text| >= 5 && stat.text[..5] == "ESME_"
  }

  predicate ValidMethod(m: string) { m == "POST" || m == "GET" }

  predicate Success(stat: Stat) { stat.ACCEPTD? || stat.DELIVRD? }

  predicate Final(stat: Stat) {
    stat.DELIVRD? || stat.EXPIRED? || stat.DELETED? || stat.UNDELIV? || stat.REJECTD?
  }

  predicate Positive(status: Status) {
    match status
    case OfResponse(r) => r.Rok?
    case OfReceipt(s) => s in {ACCEPTD, DELIVRD}
  }

  function Forget(m: Maps, id: Id): Maps { Maps(m.dlr - {id}, m.links) }

  function Tie(m: Maps, key: Key, id: Id, source: Source): Maps { Maps(m.dlr, m.links[key := Link(id, source)]) }

  /** Handling of a submit_sm_resp notice. */
  function OnResponse(receiptOnSuccess: bool, m: Maps, id: Id, st: RespStatus, fault: Fault): Handling {
    if fault.OnLookup? then Handling(m, None, RedisDown)
    else if id !in m.dlr then Handling(m, None, NotFound)
    else
      match m.dlr[id]
      case BadRecord => Handling(m, None, MapError)
      case HttpRecord(url, level, httpMethod, connector) =>
        if (level == 1 || level == 3) && !ValidMethod(httpMethod) then Handling(m, None, UnknownError)
        else
          var out := if level == 1 || level == 3
                     then Some(ToHttp(OfResponse(st), id, url, httpMethod, 1, connector, "", None))
                     else None;
          var forget := out.Some? && (level == 1 || !st.Rok?);
          var tie := (level == 2 || level == 3) && st.Rok?;
          if fault.OnUpdate? && (forget || tie) then Handling(m, out, RedisDown)
          else Handling(if forget then Forget(m, id) else if tie then Tie(m, st.key, id, Httpapi) else m, out, Done)
      case SmppsRecord(systemId, envelope, registered) =>
        var out := if (if st.Rok? then receiptOnSuccess && !registered.NotRequested? else registered.OnFailure?)
                   then Some(ToSmpps(OfResponse(st), id, systemId, envelope, None))
                   else None;
        var tie := st.Rok? && !registered.NotRequested?;
        if fault.OnUpdate? && tie then Handling(m, out, RedisDown)
        else Handling(if tie then Tie(m, st.key, id, Smppsapi) else m, out, Done)
  }

  /** Handling of a receipt (deliver_sm or data_sm) whose normalised identifier is `key`. */
  function OnReceipt(m: Maps, key: Key, stat: Stat, d: Details, fault: Fault): Handling {
    if fault.OnLookup? then Handling(m, None, RedisDown)
    else if key !in m.links || m.links[key].id !in m.dlr then Handling(m, None, NotFound)
    else
      var id := m.links[key].id;
      match m.dlr[id]
      case BadRecord => Handling(m, None, MapError)
      case HttpRecord(url, level, httpMethod, _) =>
        if m.links[key].source != Httpapi then Handling(m, None, MapError)
        else if level != 2 && level != 3 then Handling(m, None, Done)
        else if !ValidMethod(httpMethod) || !ValidStat(stat) then Handling(m, None, UnknownError)
        else
          var out := Some(ToHttp(OfReceipt(stat), id, url, httpMethod, 2, d.dlrId, key, Some(d)));
          if !Final(stat) then Handling(m, out, Done)
          else if fault.OnUpdate? then Handling(m, out, RedisDown)
          else Handling(Forget(m, id), out, Done)
      case SmppsRecord(systemId, envelope, registered) =>
        if m.links[key].source != Smppsapi then Handling(m, None, MapError)
        else if !(registered.Requested? || (registered.OnFailure? && !Success(stat))) then Handling(m, None, Done)
        else if !ValidStat(stat) then Handling(m, None, UnknownError)
        else
          var out := Some(ToSmpps(OfReceipt(stat), id, systemId, envelope, Some(d.err)));
          if !Final(stat) then Handling(m, out, Done)
          else if fault.OnUpdate? then Handling(m, out, RedisDown)
          else Handling(Forget(m, id), out, Done)
  }

  /** The record a submission leaves in Redis, if it leaves one. */
  function RecordFor(q: Request): Option<Record> {
    match q
    case HttpRequest(url, level, httpMethod, connector) =>
      if url.None? then None else Some(HttpRecord(url.value, level, httpMethod, connector))
    case SmppsRequest(systemId, envelope, registered) =>
      if registered.NotRequested? then None else Some(SmppsRecord(systemId, envelope, registered))
  }

  datatype Event =
    | Submit(id: Id, request: Request, redisUp: bool)
    | Response(id: Id, status: RespStatus, fault: Fault)
    | Receipt(key: Key, stat: Stat, details: Details, fault: Fault)
    | ExpireRecord(id: Id)
    | ExpireLink(key: Key)

  /** The maps, with what every submission so far asked for. */
  datatype State = State(maps: Maps, asked: map<Id, Request>)

  const Start := State(Maps(map[], map[]), map[])

  function Handle(receiptOnSuccess: bool, s: State, e: Event): Handling {
    match e
    case Submit(id, q, up) =>
      var r := RecordFor(q);
      Handling(if up && r.Some? then Maps(s.maps.dlr[id := r.value], s.maps.links) else s.maps, None, Done)
    case Response(id, st, fault) => OnResponse(receiptOnSuccess, s.maps, id, st, fault)
    case Receipt(key, stat, d, fault) => OnReceipt(s.maps, key, stat, d, fault)
    case ExpireRecord(id) => Handling(Forget(s.maps, id), None, Done)
    case ExpireLink(key) => Handling(Maps(s.maps.dlr, s.maps.links - {key}), None, Done)
  }

  function Next(receiptOnSuccess: bool, s: State, e: Event): State {
    State(Handle(receiptOnSuccess, s, e).maps, if e.Submit? then s.asked[e.id := e.request] else s.asked)
  }

  /** The state reached by a run from the start. */
  function Run(receiptOnSuccess: bool, es: seq<Event>): State {
    if es == [] then Start else Next(receiptOnSuccess, Run(receiptOnSuccess, es[..|es| - 1]), es[|es| - 1])
  }

  /** Message ids are fresh when they are handed out. Nothing else is asked of a run: responses and
      receipts may come in any number and order, for any identifier. */
  predicate Fresh(es: seq<Event>) {
    forall i, j :: 0 <= i < j < |es| && es[i].Submit? && es[j].Submit? ==> es[i].id != es[j].id
  }

  /** What the i-th step of a run publishes. */
  function Published(receiptOnSuccess: bool, es: seq<Event>, i: nat): Option<Content>
    requires i < |es|
  {
    Handle(receiptOnSuccess, Run(receiptOnSuccess, es[..i]), es[i]).published
  }

  // ---- What holds in every reachable state ----

  /** A link leads to a submission whose record it agrees with, whether or not the record is still there. */
  ghost predicate LinkAgrees(asked: map<Id, Request>, l: Link) {
    && l.id in asked
    && RecordFor(asked[l.id]).Some?
    && match RecordFor(asked[l.id]).value
       case HttpRecord(_, level, _, _) => l.source == Httpapi && (level == 2 || level == 3)
       case SmppsRecord(_, _, _) => l.source == Smppsapi
       case BadRecord => false
  }

  ghost predicate Consistent(s: State) {
    && (forall id :: id in s.maps.dlr ==> id in s.asked && RecordFor(s.asked[id]) == Some(s.maps.dlr[id]))
    && (forall k :: k in s.maps.links ==> LinkAgrees(s.asked, s.maps.links[k]))
  }

  lemma NextKeepsRecords(cfg: bool, s: State, e: Event, id: Id)
    requires Consistent(s) && (e.Submit? ==> e.id !in s.asked)
    requires id in Next(cfg, s, e).maps.dlr
    ensures id in Next(cfg, s, e).asked && RecordFor(Next(cfg, s, e).asked[id]) == Some(Next(cfg, s, e).maps.dlr[id])
  {
  }

  lemma NextKeepsLinks(cfg: bool, s: State, e: Event, k: Key)
    requires Consistent(s) && (e.Submit? ==> e.id !in s.asked)
    requires k in Next(cfg, s, e).maps.links
    ensures LinkAgrees(Next(cfg, s, e).asked, Next(cfg, s, e).maps.links[k])
  {
    if k in s.maps.links {
      assert LinkAgrees(s.asked, s.maps.links[k]);
    }
  }

  lemma NextKeepsConsistent(cfg: bool, s: State, e: Event)
    requires Consistent(s) && (e.Submit? ==> e.id !in s.asked)
    ensures Consistent(Next(cfg, s, e))
  {
    var s' := Next(cfg, s, e);
    forall id | id in s'.maps.dlr ensures id in s'.asked && RecordFor(s'.asked[id]) == Some(s'.maps.dlr[id]) {
      NextKeepsRecords(cfg, s, e, id);
    }
    forall k | k in s'.maps.links ensures LinkAgrees(s'.asked, s'.maps.links[k]) {
      NextKeepsLinks(cfg, s, e, k);
    }
  }

  /** The ids asked for are the ids submitted. */
  lemma {:induction false} AskedIsSubmitted(cfg: bool, es: seq<Event>)
    ensures forall id :: id in Run(cfg, es).asked <==> exists i :: 0 <= i < |es| && es[i].Submit? && es[i].id == id
  {
    if es != [] {
      var n := |es| - 1;
      AskedIsSubmitted(cfg, es[..n]);
      forall id
        ensures id in Run(cfg, es).asked <==> exists i :: 0 <= i < |es| && es[i].Submit? && es[i].id == id
      {
        if i :| 0 <= i < |es| && es[i].Submit? && es[i].id == id {
          if i < n { assert es[..n][i] == es[i]; }
        }
        if j :| 0 <= j < n && es[..n][j].Submit? && es[..n][j].id == id { assert es[j].Submit?; }
      }
    }
  }

  lemma {:induction false} RunIsConsistent(cfg: bool, es: seq<Event>)
    requires Fresh(es)
    ensures Consistent(Run(cfg, es))
  {
    if es != [] {
      var n := |es| - 1;
      RunIsConsistent(cfg, es[..n]);
      AskedIsSubmitted(cfg, es[..n]);
      NextKeepsConsistent(cfg, Run(cfg, es[..n]), es[n]);
    }
  }

  /** The state before step `i` of a run, and the step itself. */
  lemma StepOf(cfg: bool, es: seq<Event>, i: nat)
    requires Fresh(es) && i < |es|
    ensures Consistent(Run(cfg, es[..i]))
    ensures es[i].Submit? ==> es[i].id !in Run(cfg, es[..i]).asked
    ensures Run(cfg, es[..i + 1]) == Next(cfg, Run(cfg, es[..i]), es[i])
  {
    RunIsConsistent(cfg, es[..i]);
    AskedIsSubmitted(cfg, es[..i]);
    assert es[..i + 1][..i] == es[..i];
  }

  /** In every reachable state a link whose record is still there carries that record's source, and an
      httpapi link's record asked for level 2 or 3. */
  lemma SourcesAgree(cfg: bool, es: seq<Event>, k: Key)
    requires Fresh(es)
    requires k in Run(cfg, es).maps.links && Run(cfg, es).maps.links[k].id in Run(cfg, es).maps.dlr
    ensures var l := Run(cfg, es).maps.links[k];
            match Run(cfg, es).maps.dlr[l.id]
            case HttpRecord(_, level, _, _) => l.source == Httpapi && (level == 2 || level == 3)
            case SmppsRecord(_, _, registered) => l.source == Smppsapi && !registered.NotRequested?
            case BadRecord => false
  {
    RunIsConsistent(cfg, es);
    assert LinkAgrees(Run(cfg, es).asked, Run(cfg, es).maps.links[k]);
  }

  /** So the error for a record from a different source is never raised, whatever comes next. */
  lemma NeverMapError(cfg: bool, es: seq<Event>, e: Event)
    requires Fresh(es)
    ensures !Handle(cfg, Run(cfg, es), e).verdict.MapError?
  {
    RunIsConsistent(cfg, es);
    var s := Run(cfg, es);
    if e.Receipt? && e.key in s.maps.links {
      assert LinkAgrees(s.asked, s.maps.links[e.key]);
    }
  }

  /** What a notice is about is not in Redis. */
  predicate Absent(m: Maps, e: Event) {
    match e
    case Response(id, _, _) => id !in m.dlr
    case Receipt(key, _, _, _) => key !in m.links || m.links[key].id !in m.dlr
    case _ => false
  }

  /** A notice is not found exactly if Redis answers and has nothing; and neither then nor when Redis does not answer is
      anything published or changed. */
  lemma NotFoundIff(cfg: bool, s: State, e: Event)
    requires e.Response? || e.Receipt?
    ensures Handle(cfg, s, e).verdict.NotFound? <==> !e.fault.OnLookup? && Absent(s.maps, e)
    ensures e.fault.OnLookup? ==> Handle(cfg, s, e).verdict.RedisDown?
    ensures e.fault.OnLookup? || Absent(s.maps, e) ==>
              Handle(cfg, s, e).maps == s.maps && Handle(cfg, s, e).published.None?
  {
  }

  // ---- Receipts go to those who asked for them ----

  /** Whether a client who registered like this is to be told. */
  predicate Entitled(receiptOnSuccess: bool, registered: Registered, status: Status) {
    match status
    case OfResponse(r) => if r.Rok? then receiptOnSuccess && !registered.NotRequested? else registered.OnFailure?
    case OfReceipt(stat) => registered.Requested? || (registered.OnFailure? && stat !in {ACCEPTD, DELIVRD})
  }

  /** The content answers this request: it goes where the request said, and the request wanted it. */
  predicate Answers(receiptOnSuccess: bool, q: Request, c: Content) {
    match c
    case ToHttp(status, _, url, httpMethod, level, connector, _, details) =>
      && q.HttpRequest? && q.url == Some(url) && q.httpMethod == httpMethod
      && (if status.OfResponse? then level == 1 && q.level in {1, 3} && connector == q.connector && details.None?
          else level == 2 && q.level in {2, 3} && details.Some?)
    case ToSmpps(status, _, systemId, envelope, _) =>
      && q.SmppsRequest? && q.systemId == systemId && q.envelope == envelope
      && Entitled(receiptOnSuccess, q.registered, status)
  }

  lemma PublishesForLiveRecords(cfg: bool, s: State, e: Event)
    requires Consistent(s)
    ensures var p := Handle(cfg, s, e).published;
            p.Some? ==> p.value.id in s.maps.dlr && p.value.id in s.asked && Answers(cfg, s.asked[p.value.id], p.value)
  {
    if e.Receipt? && e.key in s.maps.links {
      assert LinkAgrees(s.asked, s.maps.links[e.key]);
    }
  }

  /** What was asked under an id is what its one submission said. */
  lemma {:induction false} AskedBySubmission(cfg: bool, es: seq<Event>, id: Id) returns (j: nat)
    requires Fresh(es) && id in Run(cfg, es).asked
    ensures j < |es| && es[j].Submit? && es[j].id == id && es[j].request == Run(cfg, es).asked[id]
  {
    var n := |es| - 1;
    if es[n].Submit? && es[n].id == id {
      j := n;
    } else {
      j := AskedBySubmission(cfg, es[..n], id);
    }
  }

  /** Every receipt ever published answers an earlier submission under the same id. */
  lemma EveryReceiptWasAskedFor(cfg: bool, es: seq<Event>, i: nat) returns (j: nat)
    requires Fresh(es) && i < |es| && Published(cfg, es, i).Some?
    ensures j < i && es[j].Submit? && es[j].id == Published(cfg, es, i).value.id
    ensures Answers(cfg, es[j].request, Published(cfg, es, i).value)
  {
    RunIsConsistent(cfg, es[..i]);
    PublishesForLiveRecords(cfg, Run(cfg, es[..i]), es[i]);
    j := AskedBySubmission(cfg, es[..i], Published(cfg, es, i).value.id);
  }

  /** With receipts on success responses switched off, no run tells a sender who asked for failures only
      about a success, be it from the response or from a receipt. */
  lemma FailureOnlyNeverToldOfSuccess(es: seq<Event>, j: nat, i: nat)
    requires Fresh(es) && j < |es| && i < |es|
    requires es[j].Submit? && es[j].request.SmppsRequest? && es[j].request.registered.OnFailure?
    requires Published(false, es, i).Some? && Published(false, es, i).value.id == es[j].id
    ensures !Positive(Published(false, es, i).value.status)
  {
    var j' := EveryReceiptWasAskedFor(false, es, i);
    assert j' == j;
  }

  /** A sender is told of a failed submission exactly when it registered for failures only: one who
      registered for every receipt is not told, although section 5.2.17 of SMPP v3.4 promises it. */
  lemma FailedSubmissionReportedIff(cfg: bool, s: State, id: Id, name: string)
    requires Consistent(s) && id in s.maps.dlr && s.asked[id].SmppsRequest?
    ensures Handle(cfg, s, Response(id, EsmeError(name), NoFault)).published.Some?
       <==> s.asked[id].registered.OnFailure?
  {
    assert RecordFor(s.asked[id]) == Some(s.maps.dlr[id]);
  }

  ghost predicate Unlinked(s: State, id: Id) { forall k :: k in s.maps.links ==> s.maps.links[k].id != id }

  predicate OnlyErrorsFor(e: Event, id: Id) { e.Response? && e.id == id ==> e.status.EsmeError? }

  lemma NextKeepsUnlinked(cfg: bool, s: State, e: Event, id: Id)
    requires Unlinked(s, id) && OnlyErrorsFor(e, id)
    ensures Unlinked(Next(cfg, s, e), id)
  {
  }

  lemma {:induction false} StaysUnlinked(cfg: bool, es: seq<Event>, id: Id)
    requires forall k :: 0 <= k < |es| ==> OnlyErrorsFor(es[k], id)
    ensures Unlinked(Run(cfg, es), id)
  {
    if es != [] {
      var before := es[..|es| - 1];
      forall k | 0 <= k < |before| ensures OnlyErrorsFor(before[k], id) { assert OnlyErrorsFor(es[k], id); }
      StaysUnlinked(cfg, before, id);
      assert OnlyErrorsFor(es[|es| - 1], id);
      NextKeepsUnlinked(cfg, Run(cfg, before), es[|es| - 1], id);
    }
  }

  /** In no run is a sender who registered for every receipt told anything about a message that got error responses
      only. One who registered for failures only is told, by `FailedSubmissionReportedIff`. */
  lemma FailedForEveryReceiptNeverTold(cfg: bool, es: seq<Event>, j: nat, i: nat)
    requires Fresh(es) && j < |es| && i < |es|
    requires es[j].Submit? && es[j].request.SmppsRequest? && es[j].request.registered.Requested?
    requires forall k :: 0 <= k < |es| ==> OnlyErrorsFor(es[k], es[j].id)
    ensures Published(cfg, es, i).Some? ==> Published(cfg, es, i).value.id != es[j].id
  {
    var id := es[j].id;
    assert OnlyErrorsFor(es[i], id);
    if Published(cfg, es, i).Some? && Published(cfg, es, i).value.id == id {
      var j' := EveryReceiptWasAskedFor(cfg, es, i);
      assert j' == j;
      forall k | 0 <= k < i ensures OnlyErrorsFor(es[..i][k], id) { assert OnlyErrorsFor(es[k], id); }
      StaysUnlinked(cfg, es[..i], id);
      PublishedByItsEvent(cfg, Run(cfg, es[..i]), es[i]);
    }
  }

  /** A publication comes from a response to the message, with its status, or from a receipt over a link to it. */
  lemma PublishedByItsEvent(cfg: bool, s: State, e: Event)
    ensures var p := Handle(cfg, s, e).published;
            p.Some? ==> || (e.Response? && e.id == p.value.id && p.value.status == OfResponse(e.status))
                        || (e.Receipt? && e.key in s.maps.links && s.maps.links[e.key].id == p.value.id)
  {
  }

  // ---- A final receipt is the last ----

  ghost predicate Closed(s: State, id: Id) { id in s.asked && id !in s.maps.dlr }

  lemma NextKeepsClosed(cfg: bool, s: State, e: Event, id: Id)
    requires Closed(s, id) && (e.Submit? ==> e.id !in s.asked)
    ensures Closed(Next(cfg, s, e), id)
  {
  }

  lemma {:induction false} StaysClosed(cfg: bool, es: seq<Event>, i: nat, j: nat, id: Id)
    requires Fresh(es) && i <= j <= |es| && Closed(Run(cfg, es[..i]), id)
    ensures Closed(Run(cfg, es[..j]), id)
  {
    if i < j {
      StaysClosed(cfg, es, i, j - 1, id);
      StepOf(cfg, es, j - 1);
      NextKeepsClosed(cfg, Run(cfg, es[..j - 1]), es[j - 1], id);
    }
  }

  /** The id for which step `i` publishes a receipt in a final state without a Redis failure on the
      deletion that follows. */
  predicate FinalAt(cfg: bool, es: seq<Event>, i: nat, id: Id) {
    && i < |es| && es[i].Receipt? && Final(es[i].stat) && !es[i].fault.OnUpdate?
    && Published(cfg, es, i).Some? && Published(cfg, es, i).value.id == id
  }

  /** After a final receipt nothing is ever published for that id again, neither from a receipt nor from
      a response; in particular at most one final receipt is published for an id. */
  lemma FinalReceiptIsLast(cfg: bool, es: seq<Event>, i: nat, j: nat, id: Id)
    requires Fresh(es) && i < j < |es| && FinalAt(cfg, es, i, id)
    ensures Published(cfg, es, j).Some? ==> Published(cfg, es, j).value.id != id
  {
    StepOf(cfg, es, i);
    PublishesForLiveRecords(cfg, Run(cfg, es[..i]), es[i]);
    StaysClosed(cfg, es, i + 1, j, id);
    StepOf(cfg, es, j);
    PublishesForLiveRecords(cfg, Run(cfg, es[..j]), es[j]);
  }

  // ---- How long a record lives ----

  /** The submission asks for something to be remembered. */
  predicate WantsReceipts(q: Request) { if q.HttpRequest? then q.url.Some? else q.registered != NotRequested }

  /** What the client behind request `q` is to get for a response. */
  function ExpectedAtOnce(cfg: bool, q: Request, id: Id, st: RespStatus): Option<Content> {
    match q
    case HttpRequest(url, level, httpMethod, connector) =>
      if url.Some? && level in {1, 3} && httpMethod in {"GET", "POST"}
      then Some(ToHttp(OfResponse(st), id, url.value, httpMethod, 1, connector, "", None))
      else None
    case SmppsRequest(systemId, envelope, registered) =>
      if Entitled(cfg, registered, OfResponse(st))
      then Some(ToSmpps(OfResponse(st), id, systemId, envelope, None))
      else None
  }

  /** What the client behind request `q` is to get for a receipt. */
  function Expected(q: Request, id: Id, key: Key, stat: Stat, d: Details): Option<Content> {
    if stat.OtherStat? && !("ESME_" <= stat.text) then None
    else
      match q
      case HttpRequest(url, level, httpMethod, _) =>
        if url.Some? && level in {2, 3} && httpMethod in {"GET", "POST"}
        then Some(ToHttp(OfReceipt(stat), id, url.value, httpMethod, 2, d.dlrId, key, Some(d)))
        else None
      case SmppsRequest(systemId, envelope, registered) =>
        if Entitled(false, registered, OfReceipt(stat))
        then Some(ToSmpps(OfReceipt(stat), id, systemId, envelope, Some(d.err)))
        else None
  }

  /** The response closes the record of a message submitted with `q`: it is told, and nothing more will be. */
  predicate ResponseCloses(q: Request, st: RespStatus, fault: Fault) {
    && fault.NoFault? && q.HttpRequest? && q.httpMethod in {"GET", "POST"}
    && (q.level == 1 || (q.level == 3 && st.EsmeError?))
  }

  /** The receipt closes the record of a message submitted with `q`, if it leads there. */
  predicate ReceiptCloses(q: Request, stat: Stat, fault: Fault) {
    && fault.NoFault? && stat in {DELIVRD, EXPIRED, DELETED, UNDELIV, REJECTD}
    && (if q.HttpRequest? then q.level in {2, 3} && q.httpMethod in {"GET", "POST"}
        else q.registered.Requested? || (q.registered.OnFailure? && !stat.DELIVRD?))
  }

  predicate Closes(s: State, e: Event, id: Id)
    requires id in s.asked
  {
    match e
    case ExpireRecord(id') => id' == id
    case Response(id', st, fault) => id' == id && ResponseCloses(s.asked[id], st, fault)
    case Receipt(key, stat, _, fault) =>
      key in s.maps.links && s.maps.links[key].id == id && ReceiptCloses(s.asked[id], stat, fault)
    case _ => false
  }

  /** A step takes the record of a message away exactly when it expires, when the response ends the matter for an HTTP
      client, or when a receipt that is due is in one of the five final states; not for any other receipt. */
  lemma RecordGoneIff(cfg: bool, s: State, e: Event, id: Id)
    requires Consistent(s) && id in s.maps.dlr && (e.Submit? ==> e.id !in s.asked)
    ensures id !in Next(cfg, s, e).maps.dlr <==> Closes(s, e, id)
  {
    assert RecordFor(s.asked[id]) == Some(s.maps.dlr[id]);
    if e.Receipt? && e.key in s.maps.links { assert LinkAgrees(s.asked, s.maps.links[e.key]); }
  }

  predicate ClosesAt(cfg: bool, es: seq<Event>, k: nat, id: Id)
    requires k < |es|
  {
    var s := Run(cfg, es[..k]);
    id in s.asked && Closes(s, es[k], id)
  }

  lemma RecordMade(cfg: bool, es: seq<Event>, j: nat)
    requires Fresh(es) && j < |es| && es[j].Submit?
    ensures var id, s := es[j].id, Run(cfg, es[..j + 1]);
            && id in s.asked && s.asked[id] == es[j].request
            && (id in s.maps.dlr <==> es[j].redisUp && WantsReceipts(es[j].request))
  {
    StepOf(cfg, es, j);
  }

  lemma RecordStep(cfg: bool, es: seq<Event>, k: nat, id: Id)
    requires Fresh(es) && k < |es| && id in Run(cfg, es[..k]).asked
    ensures var s, s' := Run(cfg, es[..k]), Run(cfg, es[..k + 1]);
            && id in s'.asked && s'.asked[id] == s.asked[id]
            && (id in s'.maps.dlr <==> id in s.maps.dlr && !ClosesAt(cfg, es, k, id))
  {
    var s := Run(cfg, es[..k]);
    StepOf(cfg, es, k);
    if id in s.maps.dlr { RecordGoneIff(cfg, s, es[k], id); } else { NextKeepsClosed(cfg, s, es[k], id); }
  }

  predicate NoneCloses(cfg: bool, es: seq<Event>, j: nat, n: nat, id: Id)
    requires n <= |es|
  {
    forall k :: j < k < n ==> !ClosesAt(cfg, es, k, id)
  }

  /** In every run the record of a submission is there exactly if Redis was up and receipts were asked for, and no step
      since has closed it. */
  lemma {:induction false} RecordThereIff(cfg: bool, es: seq<Event>, j: nat, n: nat)
    requires Fresh(es) && j < n <= |es| && es[j].Submit?
    ensures var id, s := es[j].id, Run(cfg, es[..n]);
            && id in s.asked && s.asked[id] == es[j].request
            && (id in s.maps.dlr <==>
                es[j].redisUp && WantsReceipts(es[j].request) && NoneCloses(cfg, es, j, n, id))
    decreases n
  {
    if n == j + 1 {
      RecordMade(cfg, es, j);
    } else {
      RecordThereIff(cfg, es, j, n - 1);
      RecordStep(cfg, es, n - 1, es[j].id);
    }
  }

  // ---- A receipt finds its way back ----

  /** A response names message `id` by `key`. */
  predicate Names(e: Event, id: Id, key: Key) { e == Response(id, Rok(key), NoFault) }

  predicate NamedBefore(es: seq<Event>, k: nat, id: Id, key: Key)
    requires k <= |es|
  {
    exists i :: 0 <= i < k && Names(es[i], id, key)
  }

  /** As `Closes`, told from the events alone: a receipt can only lead to a message that was named by its key. */
  predicate MayClose(es: seq<Event>, k: nat, id: Id, q: Request)
    requires k < |es|
  {
    match es[k]
    case ExpireRecord(id') => id' == id
    case Response(id', st, fault) => id' == id && ResponseCloses(q, st, fault)
    case Receipt(key, stat, _, fault) => NamedBefore(es, k, id, key) && ReceiptCloses(q, stat, fault)
    case _ => false
  }

  /** Submission `j` was recorded, and none of the events up to step `n` may have closed the record. */
  predicate Open(es: seq<Event>, j: nat, n: nat) {
    && j < n <= |es| && es[j].Submit? && es[j].redisUp && WantsReceipts(es[j].request)
    && forall k :: j < k < n ==> !MayClose(es, k, es[j].id, es[j].request)
  }

  /** A client with this request can be led to by an upstream identifier. */
  predicate CanBeLedTo(q: Request) {
    q.HttpRequest? ==> q.level == 2 || (q.level == 3 && q.httpMethod in {"GET", "POST"})
  }

  predicate Rebinds(e: Event, id: Id, key: Key) {
    e == ExpireLink(key) || (e.Response? && e.id != id && Names(e, e.id, key))
  }

  /** The response at step `a` named submission `j`, and up to step `n` the name has not expired or been given to
      another message. */
  predicate Named(es: seq<Event>, j: nat, a: nat, n: nat, key: Key) {
    && j < a < n <= |es| && es[j].Submit? && Names(es[a], es[j].id, key) && CanBeLedTo(es[j].request)
    && forall k :: a < k < n ==> !Rebinds(es[k], es[j].id, key)
  }

  predicate Linkable(r: Record) {
    match r
    case HttpRecord(_, level, httpMethod, _) => level == 2 || (level == 3 && ValidMethod(httpMethod))
    case SmppsRecord(_, _, registered) => !registered.NotRequested?
    case BadRecord => false
  }

  /** The step ties `key` to a message. */
  predicate TiesKey(s: State, e: Event, key: Key) {
    e.Response? && Names(e, e.id, key) && e.id in s.maps.dlr && Linkable(s.maps.dlr[e.id])
  }

  /** A link changes exactly by a tying response or its expiry. */
  lemma TiesKeyIff(cfg: bool, s: State, e: Event, key: Key)
    requires Consistent(s)
    ensures var l := Handle(cfg, s, e).maps.links;
            && (TiesKey(s, e, key) ==> key in l && l[key].id == e.id)
            && (!TiesKey(s, e, key) ==>
                  && (key in l <==> key in s.maps.links && e != ExpireLink(key))
                  && (key in l ==> l[key] == s.maps.links[key]))
  {
  }

  ghost predicate Tied(s: State, id: Id, key: Key) {
    key in s.maps.links && s.maps.links[key].id == id && id in s.maps.dlr
  }

  /** Links come from the responses that name a message. */
  lemma {:induction false} LinkWasNamed(cfg: bool, es: seq<Event>, n: nat, key: Key)
    requires Fresh(es) && n <= |es| && key in Run(cfg, es[..n]).maps.links
    ensures NamedBefore(es, n, Run(cfg, es[..n]).maps.links[key].id, key)
  {
    StepOf(cfg, es, n - 1);
    var s := Run(cfg, es[..n - 1]);
    TiesKeyIff(cfg, s, es[n - 1], key);
    if !TiesKey(s, es[n - 1], key) { LinkWasNamed(cfg, es, n - 1, key); }
  }

  lemma MayCloseIfCloses(cfg: bool, es: seq<Event>, j: nat, k: nat)
    requires Fresh(es) && j < k < |es| && es[j].Submit? && ClosesAt(cfg, es, k, es[j].id)
    ensures MayClose(es, k, es[j].id, es[j].request)
  {
    RecordThereIff(cfg, es, j, k);
    if es[k].Receipt? { LinkWasNamed(cfg, es, k, es[k].key); }
  }

  /** What the events say of a record holds of Redis. */
  lemma OpenIsThere(cfg: bool, es: seq<Event>, j: nat, n: nat)
    requires Fresh(es) && Open(es, j, n)
    ensures var id, s := es[j].id, Run(cfg, es[..n]);
            && Consistent(s) && id in s.maps.dlr && id in s.asked && s.asked[id] == es[j].request
            && Some(s.maps.dlr[id]) == RecordFor(es[j].request)
  {
    forall k | j < k < n ensures !ClosesAt(cfg, es, k, es[j].id) {
      assert !MayClose(es, k, es[j].id, es[j].request);
      if ClosesAt(cfg, es, k, es[j].id) { MayCloseIfCloses(cfg, es, j, k); }
    }
    RecordThereIff(cfg, es, j, n);
    RunIsConsistent(cfg, es[..n]);
  }

  lemma OpenBefore(es: seq<Event>, j: nat, m: nat, n: nat)
    requires Open(es, j, n) && j < m <= n
    ensures Open(es, j, m)
  {
  }

  lemma NamedBeforeToo(es: seq<Event>, j: nat, a: nat, m: nat, n: nat, key: Key)
    requires Named(es, j, a, n, key) && a < m < n
    ensures Named(es, j, a, m, key) && !Rebinds(es[m], es[j].id, key)
  {
  }

  lemma StaysTied(cfg: bool, s: State, e: Event, id: Id, key: Key)
    requires Consistent(s) && id in s.maps.dlr && id in Next(cfg, s, e).maps.dlr && !Rebinds(e, id, key)
    requires Tied(s, id, key) || (Names(e, id, key) && Linkable(s.maps.dlr[id]))
    ensures Tied(Next(cfg, s, e), id, key)
  {
    TiesKeyIff(cfg, s, e, key);
  }

  lemma TiedStep(cfg: bool, es: seq<Event>, j: nat, k: nat, key: Key)
    requires Fresh(es) && j < k < |es| && Open(es, j, k + 1) && CanBeLedTo(es[j].request)
    requires Names(es[k], es[j].id, key) || (Tied(Run(cfg, es[..k]), es[j].id, key) && !Rebinds(es[k], es[j].id, key))
    ensures Tied(Run(cfg, es[..k + 1]), es[j].id, key)
  {
    OpenBefore(es, j, k, k + 1);
    OpenIsThere(cfg, es, j, k);
    OpenIsThere(cfg, es, j, k + 1);
    StepOf(cfg, es, k);
    StaysTied(cfg, Run(cfg, es[..k]), es[k], es[j].id, key);
  }

  lemma {:induction false} NamedLeads(cfg: bool, es: seq<Event>, j: nat, a: nat, n: nat, key: Key)
    requires Fresh(es) && Open(es, j, n) && Named(es, j, a, n, key)
    ensures Tied(Run(cfg, es[..n]), es[j].id, key)
    decreases n
  {
    if a < n - 1 {
      OpenBefore(es, j, n - 1, n);
      NamedBeforeToo(es, j, a, n - 1, n, key);
      NamedLeads(cfg, es, j, a, n - 1, key);
    }
    TiedStep(cfg, es, j, n - 1, key);
  }

  /** The receipt that meets a tied key. */
  lemma TiedReceipt(cfg: bool, s: State, id: Id, e: Event)
    requires Consistent(s) && e.Receipt? && !e.fault.OnLookup? && Tied(s, id, e.key)
    ensures Handle(cfg, s, e).published == Expected(s.asked[id], id, e.key, e.stat, e.details)
  {
    assert LinkAgrees(s.asked, s.maps.links[e.key]);
  }

  /** A client submits at step `j` with Redis up; the response at step `a` names the message; and no event up to step
      `b` may have closed the record or rebound the name. Then the receipt at step `b` brings this client exactly what
      it is to get, however many other steps lie between. */
  lemma ReceiptReachesSender(cfg: bool, es: seq<Event>, j: nat, a: nat, b: nat, key: Key)
    requires Fresh(es) && b < |es| && Open(es, j, b) && Named(es, j, a, b, key)
    requires es[b].Receipt? && es[b].key == key && !es[b].fault.OnLookup?
    ensures Published(cfg, es, b) == Expected(es[j].request, es[j].id, key, es[b].stat, es[b].details)
  {
    OpenIsThere(cfg, es, j, b);
    NamedLeads(cfg, es, j, a, b, key);
    TiedReceipt(cfg, Run(cfg, es[..b]), es[j].id, es[b]);
  }

  /** Likewise a response: what it brings, and how its handling ends. */
  lemma ResponseReachesSender(cfg: bool, es: seq<Event>, j: nat, a: nat)
    requires Fresh(es) && a < |es| && Open(es, j, a)
    requires es[a].Response? && es[a].id == es[j].id && !es[a].fault.OnLookup?
    ensures Published(cfg, es, a) == ExpectedAtOnce(cfg, es[j].request, es[j].id, es[a].status)
    ensures var q, ok := es[j].request, es[a].status.Rok?;
            Handle(cfg, Run(cfg, es[..a]), es[a]).verdict ==
            if q.HttpRequest? && q.level in {1, 3} && q.httpMethod !in {"GET", "POST"} then UnknownError
            else if es[a].fault.OnUpdate? && (ok && q.HttpRequest? ==> q.level in {1, 2, 3}) &&
                    (!ok ==> q.HttpRequest? && q.level in {1, 3}) then RedisDown
            else Done
  {
    OpenIsThere(cfg, es, j, a);
  }

  /** An intermediate receipt does not end the matter: the client is due another, and gets both. */
  lemma IntermediateThenFinal(cfg: bool, es: seq<Event>, j: nat, a: nat, b: nat, c: nat, key: Key)
    requires Fresh(es) && a < b < c < |es| && Open(es, j, b) && Named(es, j, a, c, key)
    requires es[b].Receipt? && es[b].key == key && !es[b].fault.OnLookup? && es[b].stat in {ACCEPTD, UNKNOWN}
    requires forall k :: b < k < c ==> !MayClose(es, k, es[j].id, es[j].request)
    requires es[c].Receipt? && es[c].key == key && !es[c].fault.OnLookup?
    ensures Published(cfg, es, b) == Expected(es[j].request, es[j].id, key, es[b].stat, es[b].details)
    ensures Published(cfg, es, c) == Expected(es[j].request, es[j].id, key, es[c].stat, es[c].details)
    ensures Published(cfg, es, c).Some? && (es[j].request.SmppsRequest? ==> es[j].request.registered.Requested?) ==>
              Published(cfg, es, b).Some?
  {
    NamedBeforeToo(es, j, a, b, c, key);
    ReceiptReachesSender(cfg, es, j, a, b, key);
    assert !MayClose(es, b, es[j].id, es[j].request);
    ReceiptReachesSender(cfg, es, j, a, c, key);
  }

  /** Of a message whose receipt is published its response was published before it, under the same id, exactly for an
      HTTP client that asked for level 3 and, with receipts on successful responses, for an SMPP sender. */
  lemma TwoUnderOneIdIff(cfg: bool, es: seq<Event>, j: nat, a: nat, b: nat, key: Key)
    requires Fresh(es) && b < |es| && Open(es, j, b) && Named(es, j, a, b, key)
    requires es[b].Receipt? && es[b].key == key && !es[b].fault.OnLookup?
    requires Published(cfg, es, b).Some?
    ensures Published(cfg, es, b).value.id == es[j].id
    ensures Published(cfg, es, a).Some? ==> Published(cfg, es, a).value.id == es[j].id
    ensures Published(cfg, es, a).Some? <==> if es[j].request.HttpRequest? then es[j].request.level == 3 else cfg
  {
    ReceiptReachesSender(cfg, es, j, a, b, key);
    OpenBefore(es, j, a, b);
    ResponseReachesSender(cfg, es, j, a);
  }

  predicate TiesKeyAt(cfg: bool, es: seq<Event>, k: nat, key: Key)
    requires k < |es|
  {
    TiesKey(Run(cfg, es[..k]), es[k], key)
  }

  lemma LinkStep(cfg: bool, es: seq<Event>, k: nat, key: Key)
    requires Fresh(es) && k < |es| && key in Run(cfg, es[..k + 1]).maps.links
    ensures var l, l' := Run(cfg, es[..k]).maps.links, Run(cfg, es[..k + 1]).maps.links;
            if TiesKeyAt(cfg, es, k, key) then l'[key].id == es[k].id
            else key in l && l'[key] == l[key] && es[k] != ExpireLink(key)
  {
    StepOf(cfg, es, k);
    TiesKeyIff(cfg, Run(cfg, es[..k]), es[k], key);
  }

  lemma {:induction false} LinkWasTied(cfg: bool, es: seq<Event>, i: nat, key: Key) returns (a: nat)
    requires Fresh(es) && i <= |es| && key in Run(cfg, es[..i]).maps.links
    ensures a < i && TiesKeyAt(cfg, es, a, key) && es[a].id == Run(cfg, es[..i]).maps.links[key].id
    ensures forall k :: a < k < i ==> !TiesKeyAt(cfg, es, k, key) && es[k] != ExpireLink(key)
  {
    if i > 0 {
      LinkStep(cfg, es, i - 1, key);
      if TiesKeyAt(cfg, es, i - 1, key) {
        a := i - 1;
      } else {
        a := LinkWasTied(cfg, es, i - 1, key);
      }
    }
  }

  /** Conversely a published receipt came over a tie: its submission was recorded and no step since closed the record;
      an earlier successful response for the same message carried its identifier; and no step after that let the
      identifier expire or tied it to another message. */
  lemma ReceiptCameOverATie(cfg: bool, es: seq<Event>, i: nat) returns (j: nat, a: nat)
    requires Fresh(es) && i < |es| && es[i].Receipt? && Published(cfg, es, i).Some?
    ensures j < i && es[j].Submit? && es[j].id == Published(cfg, es, i).value.id
    ensures es[j].redisUp && WantsReceipts(es[j].request) && NoneCloses(cfg, es, j, i, es[j].id)
    ensures a < i && Names(es[a], es[j].id, es[i].key)
    ensures forall k :: a < k < i ==> !TiesKeyAt(cfg, es, k, es[i].key) && es[k] != ExpireLink(es[i].key)
  {
    a := LinkWasTied(cfg, es, i, es[i].key);
    j := EveryReceiptWasAskedFor(cfg, es, i);
    RecordThereIff(cfg, es, j, i);
    RunIsConsistent(cfg, es[..i]);
    PublishesForLiveRecords(cfg, Run(cfg, es[..i]), es[i]);
  }
}
