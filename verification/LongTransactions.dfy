/** The client protocol sends the parts of a long message as separate submit_sm requests and tracks them as
    one transaction, keyed by the message's reference number: it counts down as responses come in, and a
    deferred tells the sender how the whole message ended.

    `owner` stands for the identity of a send: of its deferred and of the requests that belong to it. The
    code sees only references and sequence numbers; what became of each owner is the history against which
    the bookkeeping is judged. */
module LongTransactions {
  import opened Basics

  type Ref = nat
  type SeqNum = nat
  type Owner = nat

  /** The command status of a submit_sm_resp. */
  type Status = string

  /** How a deferred is called: with the response that ended the message, whatever its status, or with an error. */
  datatype Fire = Succeeded(status: Status) | TimedOut | Cancelled

  datatype Txn = Txn(owner: Owner, nackCount: nat)

  datatype Sent = Sent(ref: Ref, owner: Owner)

  /** Of a transaction that was opened: its requests, those answered while it was open, the statuses they were answered
      with, oldest first, and the calls of its deferred. */
  datatype History = History(ref: Ref, parts: set<SeqNum>, answered: set<SeqNum>, statuses: seq<Status>,
                             fires: seq<Fire>)

  datatype State = State(
    txns: map<Ref, Txn>,           // longSubmitSmTxns
    outbound: map<SeqNum, Sent>,   // requests awaiting their response
    nextSeq: SeqNum,
    nextOwner: Owner,
    history: map<Owner, History>
  )

  const OK: Status := "ESME_ROK"

  const Start := State(map[], map[], 0, 0, map[])

  datatype Event =
    | Send(ref: Ref, segments: nat)
    | Response(seqNum: SeqNum, status: Status)
    | PartFailed(seqNum: SeqNum)   // a single request timed out or was refused
    | Timeout(ref: Ref)
    | CancelAll

  /** The sequence numbers `first` to `first + n - 1`. */
  function Span(first: SeqNum, n: nat): (r: set<SeqNum>)
    ensures |r| == n && forall q :: q in r <==> first <= q < first + n
  {
    if n == 0 then {} else Span(first, n - 1) + {first + n - 1}
  }

  /** `n` requests handed to the outbound transactions. */
  function SendParts(outbound: map<SeqNum, Sent>, first: SeqNum, n: nat, s: Sent): map<SeqNum, Sent> {
    if n == 0 then outbound else SendParts(outbound, first, n - 1, s)[first + n - 1 := s]
  }

  lemma {:induction false} SendPartsAt(outbound: map<SeqNum, Sent>, first: SeqNum, n: nat, s: Sent)
    ensures var r := SendParts(outbound, first, n, s);
            && (forall q :: q in r <==> q in outbound || first <= q < first + n)
            && (forall q :: q in r ==> r[q] == if first <= q < first + n then s else outbound[q])
  {
    if n > 0 { SendPartsAt(outbound, first, n - 1, s); }
  }

  predicate Enabled(s: State, e: Event) {
    match e
    case Send(_, n) => n >= 2
    case Response(q, _) => q in s.outbound
    case PartFailed(q) => q in s.outbound
    case Timeout(r) => r in s.txns
    case CancelAll => true
  }

  function Called(history: map<Owner, History>, o: Owner, f: Fire): map<Owner, History> {
    if o in history then history[o := history[o].(fires := history[o].fires + [f])] else history
  }

  function Heard(history: map<Owner, History>, o: Owner, q: SeqNum, st: Status): map<Owner, History> {
    if o in history then
      var h := history[o];
      history[o := h.(answered := h.answered + {q}, statuses := h.statuses + [st])]
    else history
  }

  /** Opening is refused when the reference is in use, but by then the first part has been sent. */
  function AfterSend(s: State, ref: Ref, n: nat): State {
    var o := s.nextOwner;
    if ref in s.txns then
      s.(outbound := s.outbound[s.nextSeq := Sent(ref, o)], nextSeq := s.nextSeq + 1, nextOwner := o + 1)
    else
      s.(txns := s.txns[ref := Txn(o, n)],
         outbound := SendParts(s.outbound, s.nextSeq, n, Sent(ref, o)),
         nextSeq := s.nextSeq + n,
         nextOwner := o + 1,
         history := s.history[o := History(ref, Span(s.nextSeq, n), {}, [], [])])
  }

  function Close(s: State, r: Ref, f: Fire): State
    requires r in s.txns
  {
    s.(txns := s.txns - {r}, history := Called(s.history, s.txns[r].owner, f))
  }

  /** A response counts towards whatever transaction is open under its reference. */
  function AfterResponse(s: State, q: SeqNum, st: Status): State
    requires q in s.outbound
  {
    var sent := s.outbound[q];
    var left := s.(outbound := s.outbound - {q});
    if sent.ref !in s.txns then left
    else
      var t := s.txns[sent.ref];
      var counted := if t.nackCount > 0 then t.(nackCount := t.nackCount - 1) else t;
      var heard := left.(txns := s.txns[sent.ref := counted],
                         history := if t.owner == sent.owner then Heard(s.history, t.owner, q, st) else s.history);
      if counted.nackCount == 0 then Close(heard, sent.ref, Succeeded(st)) else heard
  }

  predicate IsOpen(s: State, o: Owner) {
    o in s.history && s.history[o].ref in s.txns && s.txns[s.history[o].ref].owner == o
  }

  /** Every open transaction closed and its deferred failed. */
  function AfterCancel(s: State): State {
    State(map[], map[], s.nextSeq, s.nextOwner,
          map o | o in s.history ::
            if IsOpen(s, o) then s.history[o].(fires := s.history[o].fires + [Cancelled]) else s.history[o])
  }

  function Next(s: State, e: Event): State
    requires Enabled(s, e)
  {
    match e
    case Send(ref, n) => AfterSend(s, ref, n)
    case Response(q, st) => AfterResponse(s, q, st)
    case PartFailed(q) => s.(outbound := s.outbound - {q})
    case Timeout(r) => Close(s, r, TimedOut)
    case CancelAll => AfterCancel(s)
  }

  // ---- The bookkeeping is right ----

  /** The count of an open transaction is the number of its own requests not yet answered, at least one. */
  ghost predicate TxnRight(s: State, r: Ref)
    requires r in s.txns
  {
    var t := s.txns[r];
    && t.owner in s.history && s.history[t.owner].ref == r
    && t.nackCount == |s.history[t.owner].parts| - |s.history[t.owner].answered|
    && t.nackCount >= 1
  }

  /** The deferred has not been called while the transaction is open, and exactly once after; with success exactly
      when every request of the message was answered while it was open, and then with the status of the last answer. */
  ghost predicate OwnerRight(s: State, o: Owner)
    requires o in s.history
  {
    var h := s.history[o];
    && o < s.nextOwner && h.answered <= h.parts
    && |h.statuses| == |h.answered|
    && if IsOpen(s, o) then h.fires == []
       else
         && |h.fires| == 1 && (h.fires[0].Succeeded? <==> h.answered == h.parts)
         && (h.fires[0].Succeeded? ==> h.statuses != [] && h.fires[0].status == h.statuses[|h.statuses| - 1])
  }

  /** A request awaiting its response counts towards its own transaction or towards none. */
  ghost predicate OutboundRight(s: State, q: SeqNum)
    requires q in s.outbound
  {
    var sent := s.outbound[q];
    && q < s.nextSeq && sent.owner < s.nextOwner
    && (sent.ref in s.txns ==>
          && s.txns[sent.ref].owner == sent.owner
          && sent.owner in s.history
          && q in s.history[sent.owner].parts && q !in s.history[sent.owner].answered)
  }

  ghost predicate Right(s: State) {
    && (forall r :: r in s.txns ==> TxnRight(s, r))
    && (forall o :: o in s.history ==> OwnerRight(s, o))
    && (forall q :: q in s.outbound ==> OutboundRight(s, q))
  }

  /** The reference is neither in use nor awaited by a request of an earlier message. */
  predicate Clean(s: State, ref: Ref) {
    ref !in s.txns && forall q :: q in s.outbound ==> s.outbound[q].ref != ref
  }

  lemma SendKeepsOwner(s: State, ref: Ref, n: nat, o: Owner)
    requires Right(s) && ref !in s.txns && o in AfterSend(s, ref, n).history
    ensures OwnerRight(AfterSend(s, ref, n), o)
  {
    if o != s.nextOwner { assert OwnerRight(s, o); }
  }

  lemma SendKeepsRight(s: State, ref: Ref, n: nat)
    requires Right(s) && n >= 2 && Clean(s, ref)
    ensures Right(AfterSend(s, ref, n))
  {
    var s' := AfterSend(s, ref, n);
    SendPartsAt(s.outbound, s.nextSeq, n, Sent(ref, s.nextOwner));
    forall r | r in s'.txns ensures TxnRight(s', r) {
      if r != ref { assert TxnRight(s, r); assert OwnerRight(s, s.txns[r].owner); }
    }
    forall o | o in s'.history ensures OwnerRight(s', o) { SendKeepsOwner(s, ref, n, o); }
    forall q | q in s'.outbound ensures OutboundRight(s', q) {
      if !(s.nextSeq <= q < s.nextSeq + n) { assert OutboundRight(s, q); }
    }
  }

  lemma PartFailedKeepsRight(s: State, q: SeqNum)
    requires Right(s) && q in s.outbound
    ensures Right(s.(outbound := s.outbound - {q}))
  {
    var s' := s.(outbound := s.outbound - {q});
    forall r | r in s'.txns ensures TxnRight(s', r) { assert TxnRight(s, r); }
    forall o | o in s'.history ensures OwnerRight(s', o) { assert OwnerRight(s, o); }
    forall p | p in s'.outbound ensures OutboundRight(s', p) { assert OutboundRight(s, p); }
  }

  /** All is right except the count of the transaction under `r`. */
  ghost predicate RightBut(s: State, r: Ref) {
    && r in s.txns && s.txns[r].owner in s.history && s.history[s.txns[r].owner].ref == r
    && (forall r' :: r' in s.txns && r' != r ==> TxnRight(s, r'))
    && (forall o :: o in s.history ==> OwnerRight(s, o))
    && (forall q :: q in s.outbound ==> OutboundRight(s, q))
  }

  lemma CloseRestoresRight(s: State, r: Ref, f: Fire)
    requires RightBut(s, r)
    requires var h := s.history[s.txns[r].owner];
             && (f.Succeeded? <==> h.answered == h.parts)
             && (f.Succeeded? ==> h.statuses != [] && f.status == h.statuses[|h.statuses| - 1])
    ensures Right(Close(s, r, f))
  {
    var s', o := Close(s, r, f), s.txns[r].owner;
    assert OwnerRight(s, o);
    forall r' | r' in s'.txns ensures TxnRight(s', r') { assert TxnRight(s, r'); }
    forall p | p in s'.history ensures OwnerRight(s', p) { assert OwnerRight(s, p); }
    forall q | q in s'.outbound ensures OutboundRight(s', q) { assert OutboundRight(s, q); }
  }

  lemma TimeoutKeepsRight(s: State, r: Ref)
    requires Right(s) && r in s.txns
    ensures Right(Close(s, r, TimedOut))
  {
    assert TxnRight(s, r);
    CloseRestoresRight(s, r, TimedOut);
  }

  /** The state once a response has been counted for its own transaction, before that is closed. */
  function Counted(s: State, q: SeqNum, st: Status): State
    requires q in s.outbound && s.outbound[q].ref in s.txns && s.txns[s.outbound[q].ref].nackCount >= 1
  {
    var r := s.outbound[q].ref;
    var t := s.txns[r];
    State(s.txns[r := Txn(t.owner, t.nackCount - 1)], s.outbound - {q}, s.nextSeq, s.nextOwner,
          Heard(s.history, t.owner, q, st))
  }

  lemma CountedOwner(s: State, q: SeqNum, st: Status)
    requires Right(s) && q in s.outbound && s.outbound[q].ref in s.txns
    ensures var r := s.outbound[q].ref;
            var t := s.txns[r];
            && t.nackCount >= 1 && t.owner == s.outbound[q].owner && t.owner in s.history && s.history[t.owner].ref == r
            && var was, now := s.history[t.owner], Counted(s, q, st).history[t.owner];
               && now == History(r, was.parts, was.answered + {q}, was.statuses + [st], [])
               && now.answered <= now.parts && |now.answered| == |was.answered| + 1
               && t.nackCount == |was.parts| - |was.answered|
  {
    assert OutboundRight(s, q) && TxnRight(s, s.outbound[q].ref) && OwnerRight(s, s.txns[s.outbound[q].ref].owner);
  }

  lemma CountedIsRightBut(s: State, q: SeqNum, st: Status)
    requires Right(s) && q in s.outbound && s.outbound[q].ref in s.txns
    ensures s.txns[s.outbound[q].ref].nackCount >= 1 && RightBut(Counted(s, q, st), s.outbound[q].ref)
  {
    var ref := s.outbound[q].ref;
    CountedOwner(s, q, st);
    var s' := Counted(s, q, st);
    forall r | r in s'.txns && r != ref ensures TxnRight(s', r) { assert TxnRight(s, r); }
    forall o | o in s'.history ensures OwnerRight(s', o) { assert OwnerRight(s, o); }
    forall p | p in s'.outbound ensures OutboundRight(s', p) { assert OutboundRight(s, p); }
  }

  lemma ResponseKeepsRight(s: State, q: SeqNum, st: Status)
    requires Right(s) && q in s.outbound
    ensures Right(AfterResponse(s, q, st))
  {
    var ref := s.outbound[q].ref;
    if ref !in s.txns {
      PartFailedKeepsRight(s, q);
    } else {
      CountedOwner(s, q, st);
      CountedIsRightBut(s, q, st);
      CountedEnds(s, q, st);
      if s.txns[ref].nackCount == 1 {
        CloseRestoresRight(Counted(s, q, st), ref, Succeeded(st));
      } else {
        assert AfterResponse(s, q, st) == Counted(s, q, st);
      }
    }
  }

  /** The last response has answered every part; before it the count is right again. */
  lemma CountedEnds(s: State, q: SeqNum, st: Status)
    requires Right(s) && q in s.outbound && s.outbound[q].ref in s.txns
    ensures var r := s.outbound[q].ref;
            var o := s.txns[r].owner;
            && s.txns[r].nackCount >= 1 && o in Counted(s, q, st).history
            && if s.txns[r].nackCount == 1
               then Counted(s, q, st).history[o].answered == Counted(s, q, st).history[o].parts
               else TxnRight(Counted(s, q, st), r)
  {
    CountedOwner(s, q, st);
    var r := s.outbound[q].ref;
    var h := Counted(s, q, st).history[s.txns[r].owner];
    if s.txns[r].nackCount == 1 { SubsetOfSize(h.answered, h.parts); }
  }

  /** What senders see is right: the counts, and the calls of the deferreds. */
  ghost predicate BooksRight(s: State) {
    && (forall r :: r in s.txns ==> TxnRight(s, r))
    && (forall o :: o in s.history ==> OwnerRight(s, o))
  }

  /** A first part sent although its reference is in use: its response counts for the message that is open. */
  lemma CollisionMiscounts(s: State, ref: Ref, n: nat, st: Status)
    requires Right(s) && n >= 2 && ref in s.txns
    ensures s.nextSeq in AfterSend(s, ref, n).outbound
    ensures !BooksRight(AfterResponse(AfterSend(s, ref, n), s.nextSeq, st))
  {
    var t := s.txns[ref];
    assert TxnRight(s, ref) && OwnerRight(s, t.owner);
    var after := AfterResponse(AfterSend(s, ref, n), s.nextSeq, st);
    assert t.owner != s.nextOwner;
    if t.nackCount == 1 {
      assert after.history[t.owner].fires == [Succeeded(st)];
      assert !OwnerRight(after, t.owner);
    } else {
      assert after.txns[ref] == Txn(t.owner, t.nackCount - 1) && after.history == s.history;
      assert !TxnRight(after, ref);
    }
  }

  /** A late response to an earlier message of the same reference counts for the new one. */
  lemma StaleResponseMiscounts(s: State, ref: Ref, n: nat, q: SeqNum, st: Status)
    requires Right(s) && n >= 2 && ref !in s.txns && q in s.outbound && s.outbound[q].ref == ref
    ensures q in AfterSend(s, ref, n).outbound
    ensures !BooksRight(AfterResponse(AfterSend(s, ref, n), q, st))
  {
    SendPartsAt(s.outbound, s.nextSeq, n, Sent(ref, s.nextOwner));
    assert OutboundRight(s, q);
    var sent := AfterSend(s, ref, n);
    var after := AfterResponse(sent, q, st);
    assert after.txns[ref] == Txn(s.nextOwner, n - 1) && after.history == sent.history;
    assert !TxnRight(after, ref);
  }

  /** The response to any request there may be leaves what senders see right. */
  ghost predicate Foolproof(s: State) {
    forall q, st :: q in s.outbound ==> BooksRight(AfterResponse(s, q, st))
  }

  /** A send takes a clean reference exactly when no response that may follow it misleads a sender. */
  lemma SendSafeIffClean(s: State, ref: Ref, n: nat)
    requires Right(s) && n >= 2
    ensures Foolproof(AfterSend(s, ref, n)) <==> Clean(s, ref)
  {
    var sent := AfterSend(s, ref, n);
    if Clean(s, ref) {
      SendKeepsRight(s, ref, n);
      forall q, st | q in sent.outbound ensures BooksRight(AfterResponse(sent, q, st)) {
        ResponseKeepsRight(sent, q, st);
      }
    } else if ref in s.txns {
      CollisionMiscounts(s, ref, n, OK);
    } else {
      var q :| q in s.outbound && s.outbound[q].ref == ref;
      StaleResponseMiscounts(s, ref, n, q, OK);
    }
  }

  lemma CancelKeepsRight(s: State)
    requires Right(s)
    ensures Right(AfterCancel(s))
  {
    var s' := AfterCancel(s);
    forall o | o in s'.history ensures OwnerRight(s', o) {
      assert OwnerRight(s, o);
      if IsOpen(s, o) {
        assert TxnRight(s, s.history[o].ref);
      }
    }
  }

  // ---- Runs ----

  /** The state a run leads to from the start. */
  function Run(es: seq<Event>): State {
    if es == [] then Start
    else
      var s, e := Run(es[..|es| - 1]), es[|es| - 1];
      if Enabled(s, e) then Next(s, e) else s
  }

  /** A run in which every step can occur and every send takes a clean reference. */
  predicate Legal(es: seq<Event>) {
    es == [] ||
    (var s, e := Run(es[..|es| - 1]), es[|es| - 1];
     Legal(es[..|es| - 1]) && Enabled(s, e) && (e.Send? ==> Clean(s, e.ref)))
  }

  /** However sends, responses, failures, timeouts and cancellations interleave over any number of open messages,
      as long as each send takes a clean reference: every open transaction counts its own unanswered requests,
      and every deferred fires at most once, with success exactly when all its requests were answered in time. */
  lemma {:induction false} TransactionsAreRight(es: seq<Event>)
    requires Legal(es)
    ensures Right(Run(es))
  {
    if es != [] {
      var n := |es| - 1;
      var s := Run(es[..n]);
      TransactionsAreRight(es[..n]);
      match es[n] {
        case Send(ref, k) => SendKeepsRight(s, ref, k);
        case Response(q, st) => ResponseKeepsRight(s, q, st);
        case PartFailed(q) => PartFailedKeepsRight(s, q);
        case Timeout(r) => TimeoutKeepsRight(s, r);
        case CancelAll => CancelKeepsRight(s);
      }
    }
  }

  // ---- No part and no ending gets lost ----

  /** The step ends the transaction of `o`: its timer, a cancellation, or the response to its last awaited request. */
  predicate Ends(s: State, e: Event, o: Owner)
    requires o in s.history
  {
    match e
    case Timeout(r) => r == s.history[o].ref
    case CancelAll => true
    case Response(q, _) =>
      && q in s.outbound && s.outbound[q].ref == s.history[o].ref
      && |s.history[o].answered| + 1 == |s.history[o].parts|
    case _ => false
  }

  /** How the deferred is called when it does. */
  function EndOf(e: Event): Fire {
    if e.Response? then Succeeded(e.status) else if e.Timeout? then TimedOut else Cancelled
  }

  /** An open transaction ends exactly by such a step, and its deferred says which it was. */
  lemma OpenEndsIff(s: State, e: Event, o: Owner)
    requires Right(s) && Enabled(s, e) && (e.Send? ==> Clean(s, e.ref)) && IsOpen(s, o)
    ensures o in Next(s, e).history
    ensures IsOpen(Next(s, e), o) <==> !Ends(s, e, o)
    ensures Ends(s, e, o) ==> Next(s, e).history[o].fires == [EndOf(e)]
  {
    var ref := s.history[o].ref;
    assert OwnerRight(s, o) && TxnRight(s, ref);
    if e.Response? {
      var sent := s.outbound[e.seqNum];
      assert OutboundRight(s, e.seqNum);
      if sent.ref in s.txns && sent.ref != ref { assert TxnRight(s, sent.ref); }
    }
  }

  predicate Awaits(s: State, o: Owner, q: SeqNum)
    requires o in s.history
  {
    q in s.outbound && s.outbound[q] == Sent(s.history[o].ref, o)
  }

  /** A part of a message is awaited exactly until it is answered or reported failed. */
  ghost predicate PartKept(s: State, es: seq<Event>, o: Owner, q: SeqNum)
    requires o in s.history
  {
    Awaits(s, o, q) <==> q !in s.history[o].answered && PartFailed(q) !in es
  }

  lemma OpenStays(s: State, e: Event, o: Owner)
    requires Right(s) && Enabled(s, e) && IsOpen(s, o) && IsOpen(Next(s, e), o)
    ensures Next(s, e).history[o].parts == s.history[o].parts && Next(s, e).history[o].ref == s.history[o].ref
    ensures s.history[o].answered <= Next(s, e).history[o].answered
  {
    assert OwnerRight(s, o);
  }

  lemma PartStaysKept(s: State, es: seq<Event>, e: Event, o: Owner, q: SeqNum)
    requires Right(s) && Enabled(s, e) && (e.Send? ==> Clean(s, e.ref)) && IsOpen(s, o) && IsOpen(Next(s, e), o)
    requires q < s.nextSeq && q in s.history[o].parts && PartKept(s, es, o, q)
    ensures PartKept(Next(s, e), es + [e], o, q)
  {
    OpenStays(s, e, o);
    if e.Send? && e.ref !in s.txns { SendPartsAt(s.outbound, s.nextSeq, e.segments, Sent(e.ref, s.nextOwner)); }
    if q in s.outbound { assert OutboundRight(s, q); }
  }

  lemma PartIsSent(s: State, e: Event, o: Owner, q: SeqNum)
    requires Right(s) && Enabled(s, e) && !IsOpen(s, o) && IsOpen(Next(s, e), o) && q in Next(s, e).history[o].parts
    ensures q >= s.nextSeq && e.Send? && Awaits(Next(s, e), o, q) && Next(s, e).history[o].answered == {}
  {
    if e.Send? && e.ref !in s.txns { SendPartsAt(s.outbound, s.nextSeq, e.segments, Sent(e.ref, s.nextOwner)); }
  }

  lemma {:induction false} FailedWasSent(es: seq<Event>, q: SeqNum)
    requires Legal(es) && PartFailed(q) in es
    ensures q < Run(es).nextSeq
  {
    var n := |es| - 1;
    TransactionsAreRight(es[..n]);
    assert es == es[..n] + [es[n]];
    if es[n] == PartFailed(q) { assert OutboundRight(Run(es[..n]), q); } else { FailedWasSent(es[..n], q); }
  }

  lemma {:induction false} PartsWereSent(es: seq<Event>, o: Owner, q: SeqNum)
    requires Legal(es) && o in Run(es).history && q in Run(es).history[o].parts
    ensures q < Run(es).nextSeq
  {
    if es != [] {
      var n := |es| - 1;
      if o in Run(es[..n]).history && q in Run(es[..n]).history[o].parts { PartsWereSent(es[..n], o, q); }
    }
  }

  /** In every run with clean references each part of an open message has been sent, and is awaited exactly until it is
      answered or fails. */
  lemma {:induction false} EveryPartKept(es: seq<Event>, o: Owner, q: SeqNum)
    requires Legal(es) && IsOpen(Run(es), o) && q in Run(es).history[o].parts
    ensures PartKept(Run(es), es, o, q)
  {
    var n := |es| - 1;
    TransactionsAreRight(es[..n]);
    assert es == es[..n] + [es[n]];
    if IsOpen(Run(es[..n]), o) {
      OpenStays(Run(es[..n]), es[n], o);
      EveryPartKept(es[..n], o, q);
      PartsWereSent(es[..n], o, q);
      PartStaysKept(Run(es[..n]), es[..n], es[n], o, q);
    } else {
      PartIsSent(Run(es[..n]), es[n], o, q);
      if PartFailed(q) in es[..n] { FailedWasSent(es[..n], q); }
    }
  }

  /** Without a clean reference a sender is misled: the first part of the refused second message answers for the
      second part of the first, whose deferred reports success with that part unanswered. */
  lemma CollisionMisleads()
    ensures var s1 := AfterSend(Start, 7, 2);
            var s2 := AfterSend(s1, 7, 2);
            && 0 in s2.outbound && 2 in s2.outbound
            && 2 in AfterResponse(s2, 0, OK).outbound
            && var s4 := AfterResponse(AfterResponse(s2, 0, OK), 2, OK);
               s4.history[0].fires == [Succeeded(OK)] && s4.history[0].answered == {0} && s4.history[0].parts == {0, 1}
  {
    var s1 := AfterSend(Start, 7, 2);
    SendPartsAt(map[], 0, 2, Sent(7, 0));
    assert s1.history[0].parts == {0, 1};
    var s2 := AfterSend(s1, 7, 2);
    var s3 := AfterResponse(s2, 0, OK);
    assert s3.txns[7] == Txn(0, 1) && s3.history[0].answered == {0};
  }

  /** In every run with clean references: the deferred of a message all of whose parts were answered in time is called
      with the status of the last answer, so a refusal is reported exactly when it is the last to come. */
  lemma LastStatusReported(es: seq<Event>, o: Owner)
    requires Legal(es) && o in Run(es).history
    requires !IsOpen(Run(es), o) && Run(es).history[o].answered == Run(es).history[o].parts
    ensures var h := Run(es).history[o];
            && |h.statuses| == |h.parts| > 0
            && h.fires == [Succeeded(h.statuses[|h.statuses| - 1])]
  {
    TransactionsAreRight(es);
    assert OwnerRight(Run(es), o);
  }

  /** Of a message of two parts the first is refused and the second accepted: it is reported as accepted. */
  lemma RefusalGoesUnreported(ref: Ref, error: Status)
    ensures var s := AfterSend(Start, ref, 2);
            && 0 in s.outbound && 1 in AfterResponse(s, 0, error).outbound
            && AfterResponse(AfterResponse(s, 0, error), 1, OK).history[0].fires == [Succeeded(OK)]
  {
    var s1 := AfterSend(Start, ref, 2);
    SendPartsAt(map[], 0, 2, Sent(ref, 0));
    var s2 := AfterResponse(s1, 0, error);
    assert s2.txns[ref] == Txn(0, 1) && s2.history[0].fires == [];
  }

  // ---- The protocol object ----

  /** Every transaction is filed under the reference of its owner. Unlike `Right` this survives a collision. */
  ghost predicate Filed(s: State) {
    && (forall r :: r in s.txns ==> s.txns[r].owner in s.history && s.history[s.txns[r].owner].ref == r)
    && (forall o :: o in s.history ==> o < s.nextOwner)
  }

  lemma NextKeepsFiled(s: State, e: Event)
    requires Filed(s) && Enabled(s, e)
    ensures Filed(Next(s, e))
  {
  }

  class ClientProtocol {
    var longSubmitSmTxns: map<Ref, Txn>
    var outbound: map<SeqNum, Sent>
    var nextSeq: SeqNum
    var nextOwner: Owner
    ghost var history: map<Owner, History>

    ghost predicate Valid() reads this { Filed(View()) }

    ghost function View(): State reads this { State(longSubmitSmTxns, outbound, nextSeq, nextOwner, history) }

    constructor ()
      ensures Valid() && View() == Start
    {
      longSubmitSmTxns, outbound, nextSeq, nextOwner, history := map[], map[], 0, 0, map[];
    }

    /** One part handed to the transport under a new sequence number. */
    method SendPart(sent: Sent)
      modifies this`nextSeq, this`outbound
      ensures nextSeq == old(nextSeq) + 1 && outbound == old(outbound)[old(nextSeq) := sent]
    {
      var seqNum := nextSeq;
      nextSeq := nextSeq + 1;
      outbound := outbound[seqNum := sent];
    }

    /** `startLongSubmitSmTransaction`; false is the exception for a reference in use. */
    method StartTransaction(ref: Ref, owner: Owner, segments: nat, ghost h: History) returns (started: bool)
      modifies this`longSubmitSmTxns, this`history
      ensures started <==> ref !in old(longSubmitSmTxns)
      ensures longSubmitSmTxns ==
              if started then old(longSubmitSmTxns)[ref := Txn(owner, segments)] else old(longSubmitSmTxns)
      ensures history == if started then old(history)[owner := h] else old(history)
    {
      if ref in longSubmitSmTxns { return false; }
      longSubmitSmTxns := longSubmitSmTxns[ref := Txn(owner, segments)];
      history := history[owner := h];
      started := true;
    }

    /** The loop of `doSendRequest` over the parts of a long message: the transaction is started after the first
        part has been sent. */
    method SendLong(ref: Ref, segments: nat) returns (started: bool)
      requires Valid() && segments >= 2
      modifies this
      ensures Valid() && View() == AfterSend(old(View()), ref, segments)
      ensures started <==> ref !in old(longSubmitSmTxns)
    {
      NextKeepsFiled(View(), Send(ref, segments));
      var sent := Sent(ref, nextOwner);
      nextOwner := nextOwner + 1;
      ghost var first, was := nextSeq, outbound;
      ghost var h := History(ref, Span(first, segments), {}, [], []);
      SendPart(sent);
      started := StartTransaction(ref, sent.owner, segments, h);
      if !started { return; }
      label sending:
      var i := 1;
      while i < segments
        invariant 1 <= i <= segments && nextSeq == first + i
        invariant outbound == SendParts(was, first, i, sent)
        invariant unchanged@sending(`longSubmitSmTxns, `history, `nextOwner)
      {
        SendPart(sent);
        i := i + 1;
      }
    }

    /** `closeLongSubmitSmTransaction` and the call of its deferred. */
    method CloseTransaction(ref: Ref, f: Fire) returns (owner: Owner)
      requires ref in longSubmitSmTxns
      modifies this`longSubmitSmTxns, this`history
      ensures owner == old(longSubmitSmTxns[ref].owner)
      ensures View() == Close(old(View()), ref, f)
    {
      owner := longSubmitSmTxns[ref].owner;
      longSubmitSmTxns := longSubmitSmTxns - {ref};
      history := Called(history, owner, f);
    }

    /** `endLongSubmitSmTransaction` for the response to an outbound request; the second result is the deferred
        called, if one is, with the status it is given. */
    method ResponseReceived(seqNum: SeqNum, status: Status) returns (known: bool, done: Option<(Owner, Status)>)
      requires Valid() && seqNum in outbound
      modifies this
      ensures Valid() && View() == AfterResponse(old(View()), seqNum, status)
      ensures known <==> old(outbound[seqNum]).ref in old(longSubmitSmTxns)
      ensures done.Some? <==> known && old(outbound[seqNum]).ref !in longSubmitSmTxns
      ensures done.Some? ==> done.value == (old(longSubmitSmTxns)[old(outbound[seqNum]).ref].owner, status)
    {
      NextKeepsFiled(View(), Response(seqNum, status));
      var sent := outbound[seqNum];
      outbound := outbound - {seqNum};
      done := None;
      if sent.ref !in longSubmitSmTxns { return false, None; }
      known := true;
      var t := longSubmitSmTxns[sent.ref];
      if t.owner == sent.owner { history := Heard(history, t.owner, seqNum, status); }
      if t.nackCount > 0 {
        longSubmitSmTxns := longSubmitSmTxns[sent.ref := Txn(t.owner, t.nackCount - 1)];
      } else {
        longSubmitSmTxns := longSubmitSmTxns[sent.ref := t];
      }
      if longSubmitSmTxns[sent.ref].nackCount == 0 {
        var owner := CloseTransaction(sent.ref, Succeeded(status));
        done := Some((owner, status));
      }
    }

    method PartFailure(seqNum: SeqNum)
      requires Valid() && seqNum in outbound
      modifies this`outbound
      ensures Valid() && View() == Next(old(View()), PartFailed(seqNum))
    {
      outbound := outbound - {seqNum};
    }

    method TransactionTimeout(ref: Ref)
      requires Valid() && ref in longSubmitSmTxns
      modifies this`longSubmitSmTxns, this`history
      ensures Valid() && View() == Next(old(View()), Timeout(ref))
    {
      NextKeepsFiled(View(), Timeout(ref));
      var _ := CloseTransaction(ref, TimedOut);
    }

    /** `cancelOutboundTransactions`: every request is forgotten, every transaction closed and its deferred
        failed. */
    method CancelTransactions()
      requires Valid()
      modifies this
      ensures Valid() && View() == AfterCancel(old(View()))
    {
      ghost var before := View();
      outbound := map[];
      var items := longSubmitSmTxns.Keys;
      while items != {}
        invariant items <= before.txns.Keys && longSubmitSmTxns.Keys == items
        invariant forall r :: r in items ==> longSubmitSmTxns[r] == before.txns[r]
        invariant outbound == map[] && nextSeq == before.nextSeq && nextOwner == before.nextOwner
        invariant history == CancelledBut(before, items)
      {
        var ref :| ref in items;
        CancelOne(before, items, ref);
        var _ := CloseTransaction(ref, Cancelled);
        items := items - {ref};
      }
      assert history == AfterCancel(before).history by { CancelledAll(before); }
    }
  }

  /** The history when the transactions under `left` are still to be cancelled. */
  function CancelledBut(s: State, left: set<Ref>): map<Owner, History> {
    map o | o in s.history ::
      if IsOpen(s, o) && s.history[o].ref !in left
      then s.history[o].(fires := s.history[o].fires + [Cancelled]) else s.history[o]
  }

  lemma CancelOne(s: State, left: set<Ref>, ref: Ref)
    requires Filed(s) && left <= s.txns.Keys && ref in left
    ensures Called(CancelledBut(s, left), s.txns[ref].owner, Cancelled) == CancelledBut(s, left - {ref})
  {
    var a, b := Called(CancelledBut(s, left), s.txns[ref].owner, Cancelled), CancelledBut(s, left - {ref});
    assert forall o :: o in s.history ==> a[o] == b[o];
  }

  lemma CancelledAll(s: State)
    ensures CancelledBut(s, {}) == AfterCancel(s).history
  {
  }
}
