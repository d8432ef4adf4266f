/** Charging a user for the messages they send: a part of the route's rate is debited when a message is accepted, the
    rest when the SMSC has answered it. Money is exact here. */
module Billing {
  import opened Basics

  type Uid = string

  /** The quotas of a user's MT credential; `None` is unlimited. */
  datatype Quotas = Quotas(balance: Option<real>, percent: Option<real>, count: Option<int>)

  /** What `setQuota` lets through. */
  predicate Valid(q: Quotas) {
    && (q.balance.Some? ==> q.balance.value >= 0.0)
    && (q.percent.Some? ==> 1.0 <= q.percent.value <= 100.0)
    && (q.count.Some? ==> q.count.value >= 0)
  }

  function Worth(q: Quotas): real { if q.balance.Some? then q.balance.value else 0.0 }

  /** `counted` is the action of decrementing the message count by one a part. */
  datatype Bill = Bill(submit: real, resp: real, counted: bool)

  function Total(b: Bill): real { b.submit + b.resp }

  function PercentOf(rate: real, p: real): real { rate * p / 100.0 }

  function BillFor(rate: real, q: Quotas): Bill {
    var submit :=
      if rate > 0.0 && q.balance.Some? then
        if q.percent.Some? then PercentOf(rate, q.percent.value) else rate
      else 0.0;
    var resp := if rate > 0.0 && q.balance.Some? && q.percent.Some? then rate - submit else 0.0;
    Bill(submit, resp, q.count.Some?)
  }

  /** The share of a price that is due at once, in percent. */
  function Share(q: Quotas): real { if q.percent.Some? then q.percent.value else 100.0 }

  /** What the rest of the gateway relies on in a bill: its two parts are non-negative and make up the rate, the first
      is the early share of it, and one with anything to pay has something to pay at once. */
  predicate Fair(b: Bill, rate: real, q: Quotas) {
    && (q.balance.Some? ==> b.submit + b.resp == rate && 100.0 * b.submit == rate * Share(q))
    && (q.balance.None? ==> b.submit == 0.0 && b.resp == 0.0)
    && b.submit >= 0.0 && b.resp >= 0.0
    && (b.submit > 0.0 <==> b.submit + b.resp > 0.0)
    && (q.percent.None? ==> b.resp == 0.0)
    && b.counted == q.count.Some?
  }

  lemma ProductNonNegative(a: real, b: real)
    requires a >= 0.0 && b >= 0.0
    ensures a * b >= 0.0
  {
  }

  lemma PercentWithin(rate: real, p: real)
    requires rate >= 0.0 && 1.0 <= p <= 100.0
    ensures 0.0 <= PercentOf(rate, p) <= rate && 100.0 * PercentOf(rate, p) == rate * p
    ensures rate > 0.0 ==> PercentOf(rate, p) > 0.0
  {
    var x := rate * p;
    ProductNonNegative(rate, p - 1.0);
    ProductNonNegative(rate, 100.0 - p);
    assert rate * (p - 1.0) == x - rate && rate * (100.0 - p) == 100.0 * rate - x;
    assert PercentOf(rate, p) == x / 100.0;
  }

  lemma BillSplitsRate(rate: real, q: Quotas)
    requires rate >= 0.0 && Valid(q)
    ensures Fair(BillFor(rate, q), rate, q)
  {
    if q.percent.Some? { PercentWithin(rate, q.percent.value); } else { PercentWithin(rate, 100.0); }
  }

  function Messages(b: Bill, n: nat): nat { if b.counted then n else 0 }

  /** An amount charged for each of `n` parts. */
  function Times(amount: real, n: nat): real { if n == 0 then 0.0 else Times(amount, n - 1) + amount }

  lemma {:induction false} TimesIsProduct(amount: real, n: nat)
    ensures Times(amount, n) == amount * n as real
  {
    if n > 0 { TimesIsProduct(amount, n - 1); }
  }

  lemma {:induction false} TimesAdds(a: real, b: real, n: nat)
    ensures Times(a + b, n) == Times(a, n) + Times(b, n)
  {
    if n > 0 { TimesAdds(a, b, n - 1); }
  }

  lemma {:induction false} TimesHundred(a: real, n: nat)
    ensures 100.0 * Times(a, n) == Times(100.0 * a, n)
  {
    if n > 0 { TimesHundred(a, n - 1); }
  }

  lemma {:induction false} TimesSign(a: real, n: nat)
    requires a >= 0.0 && n >= 1
    ensures Times(a, n) >= 0.0
    ensures Times(a, n) > 0.0 <==> a > 0.0
  {
    if n > 1 { TimesSign(a, n - 1); } else { assert Times(a, 0) == 0.0; }
  }

  lemma {:induction false} TimesMonotone(a: real, m: nat, n: nat)
    requires a >= 0.0 && m <= n
    ensures Times(a, m) <= Times(a, n)
    ensures Times(a, m) == Times(a, n) <==> a == 0.0 || m == n
  {
    if m < n { TimesMonotone(a, m, n - 1); }
  }

  datatype Verdict = Charged | Declined | Crashed

  predicate Met(requirements: seq<bool>) { forall i :: 0 <= i < |requirements| ==> requirements[i] }

  /** Debit an amount and a number of messages, the first of them even when the second is refused. */
  function Debit(q: Quotas, amount: real, messages: nat): (Quotas, Verdict) {
    if amount > 0.0 && q.balance.Some? && q.balance.value < amount then (q, Declined)
    else
      var debited := if amount > 0.0 && q.balance.Some? then q.(balance := Some(q.balance.value - amount)) else q;
      if messages > 0 && q.count.Some? && q.count.value < messages then (debited, Declined)
      else
        (if messages > 0 && q.count.Some? then debited.(count := Some(q.count.value - messages)) else debited, Charged)
  }

  function Charge(q: Quotas, b: Bill, n: nat, requirements: seq<bool>): (Quotas, Verdict) {
    if Met(requirements) then Debit(q, Times(b.submit, n), Messages(b, n)) else (q, Declined)
  }

  /** A declined charge changes the quotas exactly when the balance was sufficient and the count was not. */
  lemma ChargeAtomicIff(q: Quotas, b: Bill, n: nat, requirements: seq<bool>)
    ensures var (after, v) := Charge(q, b, n, requirements);
            v.Declined? && after != q <==>
            && Met(requirements)
            && q.balance.Some? && 0.0 < Times(b.submit, n) <= q.balance.value
            && q.count.Some? && q.count.value < Messages(b, n) && 0 < Messages(b, n)
  {
    var amount := Times(b.submit, n);
    if amount > 0.0 && q.balance.Some? {
      assert q.(balance := Some(q.balance.value - amount)).balance.value != q.balance.value;
    }
  }

  /** The requirements the SMPP server (`n` = 1) and the HTTP API put to the charge of a message of `n` parts. */
  function Requirements(q: Quotas, b: Bill, n: nat): seq<bool> {
    (if q.balance.Some? && Total(b) > 0.0 then [Times(Total(b), n) <= q.balance.value] else []) +
    (if q.count.Some? then [Messages(b, n) <= q.count.value] else [])
  }

  function Submit(q: Quotas, b: Bill, n: nat): (Quotas, Verdict) {
    Charge(q, b, n, Requirements(q, b, n))
  }

  lemma PriceSplits(q: Quotas, b: Bill, rate: real, n: nat)
    requires rate >= 0.0 && Fair(b, rate, q) && n >= 1
    ensures Times(b.submit, n) + Times(b.resp, n) == Times(Total(b), n)
    ensures Times(b.submit, n) >= 0.0 && Times(b.resp, n) >= 0.0
    ensures Times(b.submit, n) > 0.0 <==> Total(b) > 0.0
    ensures Total(b) == 0.0 ==> Times(Total(b), n) == 0.0
  {
    TimesAdds(b.submit, b.resp, n);
    TimesSign(b.submit, n);
    TimesSign(b.resp, n);
    TimesSign(0.0, n);
  }

  /** When a message of `n` parts is accepted. */
  predicate Affordable(q: Quotas, rate: real, n: nat) {
    && (q.balance.Some? ==> Times(rate, n) <= q.balance.value)
    && (q.count.Some? ==> n <= q.count.value)
  }

  lemma MetWhenFair(q: Quotas, b: Bill, rate: real, n: nat)
    requires rate >= 0.0 && Valid(q) && Fair(b, rate, q) && n >= 1
    ensures Met(Requirements(q, b, n)) <==> Affordable(q, rate, n)
  {
    PriceSplits(q, b, rate, n);
    var rs := Requirements(q, b, n);
    if q.balance.Some? && Total(b) > 0.0 { assert rs[0] == (Times(rate, n) <= q.balance.value); }
    if q.count.Some? { assert rs[|rs| - 1] == (n <= q.count.value); }
  }

  lemma DebitAffordable(q: Quotas, early: real, late: real, messages: nat)
    requires Valid(q) && early >= 0.0 && late >= 0.0
    requires q.balance.Some? ==> early + late <= q.balance.value
    requires q.balance.None? ==> early == 0.0 == late
    requires q.count.Some? ==> messages <= q.count.value
    ensures var (after, v) := Debit(q, early, messages);
            v.Charged? && Valid(after) && Worth(after) == Worth(q) - early && late <= Worth(after) &&
            after == Quotas(if q.balance.Some? then Some(q.balance.value - early) else None, q.percent,
                            if q.count.Some? then Some(q.count.value - messages) else None)
  {
  }

  lemma ChargedWhenFair(q: Quotas, b: Bill, rate: real, n: nat)
    requires rate >= 0.0 && Valid(q) && Fair(b, rate, q) && n >= 1
    ensures var (after, v) := Submit(q, b, n);
            && (v.Charged? <==> Affordable(q, rate, n))
            && (!v.Charged? ==> v.Declined? && after == q)
            && (v.Charged? ==> Times(b.resp, n) <= Worth(after) == Worth(q) - Times(b.submit, n))
            && (v.Charged? && q.count.Some? ==> after.count == Some(q.count.value - n))
            && Valid(after) && after.balance.Some? == q.balance.Some?
  {
    MetWhenFair(q, b, rate, n);
    PriceSplits(q, b, rate, n);
    if Affordable(q, rate, n) {
      DebitAffordable(q, Times(b.submit, n), Times(b.resp, n), Messages(b, n));
    }
  }

  /** With these requirements the charge of a message is all or nothing: it is accepted exactly when the balance covers
      the whole price and the count all the parts, a refusal changes nothing, and an accepted message leaves enough for
      the part that is still to be paid. */
  lemma SubmitAllOrNothing(q: Quotas, rate: real, n: nat)
    requires rate >= 0.0 && Valid(q) && n >= 1
    ensures var b := BillFor(rate, q);
            var (after, v) := Submit(q, b, n);
            && (v.Charged? <==> Affordable(q, rate, n))
            && (!v.Charged? ==> v.Declined? && after == q)
            && (v.Charged? ==> Times(b.resp, n) <= Worth(after) == Worth(q) - Times(b.submit, n))
            && (v.Charged? && q.count.Some? ==> after.count == Some(q.count.value - n))
            && Valid(after) && after.balance.Some? == q.balance.Some?
  {
    BillSplitsRate(rate, q);
    ChargedWhenFair(q, BillFor(rate, q), rate, n);
  }

  datatype Settlement = Acked | Rejected | Unsettled

  /** The consumer of `bill_request.submit_sm_resp`. A user whose balance has become unlimited in the meantime gets the
      request neither acknowledged nor rejected. */
  function Collect(q: Option<Quotas>, amount: real): (Option<Quotas>, Settlement) {
    if q.None? then (q, Rejected)
    else if q.value.balance.None? then (q, Unsettled)
    else if q.value.balance.value < amount then (q, Rejected)
    else (Some(q.value.(balance := Some(q.value.balance.value - amount))), Acked)
  }

  // Whole histories

  /** `Sent` waits for its response, `Requested` for its bill request; `Closed` owes nothing. */
  datatype Phase = Sent | Closed | Requested | Paid | Refused | Forgotten

  /** An accepted message: the route's rate, the share of it due at once, its parts and those the response is billed
      for, whether the user's balance was limited, what was debited at once and what is due on the response. */
  datatype Message = Message(uid: Uid, rate: real, share: real, parts: nat, billed: nat, limited: bool,
                             early: real, late: real, phase: Phase)

  datatype State = State(users: map<Uid, Quotas>, messages: seq<Message>)

  /** Of the parts of a message `billed` are counted when it is answered: all of them, or one when they carry no
      marks. */
  datatype Event =
    | Send(uid: Uid, rate: real, parts: nat, billed: nat)
    | Respond(i: int, ok: bool)
    | Request(i: int)
    | TopUp(uid: Uid, amount: real)
    | SetBalance(uid: Uid, balance: Option<real>)

  predicate Enabled(s: State, e: Event) {
    match e
    case Send(u, rate, n, billed) => u in s.users && rate >= 0.0 && 1 <= billed <= n
    case Respond(i, _) => 0 <= i < |s.messages| && s.messages[i].phase.Sent?
    case Request(i) => 0 <= i < |s.messages| && s.messages[i].phase.Requested?
    case TopUp(u, amount) => u in s.users && amount >= 0.0
    case SetBalance(u, b) => u in s.users && (b.Some? ==> b.value >= 0.0)
  }

  function Accepted(u: Uid, rate: real, q: Quotas, b: Bill, n: nat, billed: nat): Message {
    Message(u, rate, Share(q), n, billed, q.balance.Some?, Times(b.submit, n), Times(b.resp, billed), Sent)
  }

  function Answered(m: Message, ok: bool): Message {
    m.(phase := if ok && m.late > 0.0 then Requested else Closed)
  }

  function Collected(m: Message, r: Settlement): Message {
    m.(phase := match r case Acked => Paid case Rejected => Refused case Unsettled => Forgotten)
  }

  function Next(s: State, e: Event): State
    requires Enabled(s, e)
  {
    match e
    case Send(u, rate, n, billed) =>
      var q := s.users[u];
      var b := BillFor(rate, q);
      var (after, v) := Submit(q, b, n);
      State(s.users[u := after],
            if v.Charged? then s.messages + [Accepted(u, rate, q, b, n, billed)] else s.messages)
    case Respond(i, ok) => s.(messages := s.messages[i := Answered(s.messages[i], ok)])
    case Request(i) =>
      var m := s.messages[i];
      var (after, r) := Collect(if m.uid in s.users then Some(s.users[m.uid]) else None, m.late);
      State(if after.Some? then s.users[m.uid := after.value] else s.users, s.messages[i := Collected(m, r)])
    case TopUp(u, amount) => s.(users := s.users[u := s.users[u].(balance := Some(Worth(s.users[u]) + amount))])
    case SetBalance(u, b) => s.(users := s.users[u := s.users[u].(balance := b)])
  }

  /** The state a history leads to; an event that cannot occur changes nothing. */
  function Run(users: map<Uid, Quotas>, es: seq<Event>): State {
    if es == [] then State(users, [])
    else
      var s, e := Run(users, es[..|es| - 1]), es[|es| - 1];
      if Enabled(s, e) then Next(s, e) else s
  }

  predicate EnabledAt(users: map<Uid, Quotas>, es: seq<Event>, k: nat)
    requires k < |es|
  {
    Enabled(Run(users, es[..k]), es[k])
  }

  /** A history all of whose events can occur. */
  predicate Legal(users: map<Uid, Quotas>, es: seq<Event>) { forall k :: 0 <= k < |es| ==> EnabledAt(users, es, k) }

  lemma LastStep(users: map<Uid, Quotas>, es: seq<Event>)
    requires Legal(users, es) && es != []
    ensures var before := es[..|es| - 1];
            && Legal(users, before) && Enabled(Run(users, before), es[|es| - 1])
            && Run(users, es) == Next(Run(users, before), es[|es| - 1])
  {
    var before := es[..|es| - 1];
    assert EnabledAt(users, es, |es| - 1);
    forall k | 0 <= k < |before| ensures EnabledAt(users, before, k) {
      assert EnabledAt(users, es, k) && before[..k] == es[..k];
    }
  }

  /** The sum of `f` over the messages of user `u`. */
  function Sum(ms: seq<Message>, u: Uid, f: Message -> real): real {
    if ms == [] then 0.0
    else Sum(ms[..|ms| - 1], u, f) + if ms[|ms| - 1].uid == u then f(ms[|ms| - 1]) else 0.0
  }

  lemma SumAppend(ms: seq<Message>, m: Message, u: Uid, f: Message -> real)
    ensures Sum(ms + [m], u, f) == Sum(ms, u, f) + if m.uid == u then f(m) else 0.0
  {
    assert (ms + [m])[..|ms|] == ms;
  }

  lemma {:induction false} SumUpdate(ms: seq<Message>, i: nat, m: Message, u: Uid, f: Message -> real)
    requires i < |ms| && m.uid == ms[i].uid
    ensures Sum(ms[i := m], u, f) == Sum(ms, u, f) + if m.uid == u then f(m) - f(ms[i]) else 0.0
  {
    var k := |ms| - 1;
    if i < k {
      SumUpdate(ms[..k], i, m, u, f);
      assert ms[i := m][..k] == ms[..k][i := m];
    } else {
      assert ms[i := m][..k] == ms[..k];
    }
  }

  function PaidOf(m: Message): real { m.early + if m.phase.Paid? then m.late else 0.0 }

  function OwedOf(m: Message): real { if m.phase.Sent? || m.phase.Requested? then m.late else 0.0 }

  function Spent(s: State, u: Uid): real { Sum(s.messages, u, PaidOf) }

  function Owed(s: State, u: Uid): real { Sum(s.messages, u, OwedOf) }

  predicate MessageSound(s: State, m: Message) {
    && m.uid in s.users && m.rate >= 0.0 && 1 <= m.billed <= m.parts
    && m.early >= 0.0 && m.late >= 0.0
    && (m.limited ==> m.early + m.late <= Times(m.rate, m.parts))
    && (m.limited ==> (m.early + m.late == Times(m.rate, m.parts) <==> m.late == 0.0 || m.billed == m.parts))
    && (!m.limited ==> m.early == 0.0 && m.late == 0.0)
    && (m.phase.Requested? ==> m.late > 0.0)
  }

  lemma AcceptedIsSound(s: State, u: Uid, rate: real, q: Quotas, b: Bill, n: nat, billed: nat)
    requires u in s.users && rate >= 0.0 && Fair(b, rate, q) && 1 <= billed <= n
    ensures MessageSound(s, Accepted(u, rate, q, b, n, billed))
  {
    PriceSplits(q, b, rate, n);
    TimesSign(b.resp, billed);
    TimesMonotone(b.resp, billed, n);
    if q.balance.None? { TimesSign(0.0, n); }
  }

  ghost predicate Sound(s: State) {
    && (forall u :: u in s.users ==> Valid(s.users[u]))
    && (forall i :: 0 <= i < |s.messages| ==> MessageSound(s, s.messages[i]))
  }

  lemma SendKeepsSound(s: State, u: Uid, rate: real, n: nat, billed: nat)
    requires Sound(s) && Enabled(s, Send(u, rate, n, billed))
    ensures Sound(Next(s, Send(u, rate, n, billed)))
  {
    var b := BillFor(rate, s.users[u]);
    BillSplitsRate(rate, s.users[u]);
    ChargedWhenFair(s.users[u], b, rate, n);
    var after := Next(s, Send(u, rate, n, billed));
    AcceptedIsSound(after, u, rate, s.users[u], b, n, billed);
    forall i | 0 <= i < |after.messages| ensures MessageSound(after, after.messages[i]) {
      if i < |s.messages| { assert MessageSound(s, s.messages[i]); }
    }
  }

  lemma NextKeepsSound(s: State, e: Event)
    requires Sound(s) && Enabled(s, e)
    ensures Sound(Next(s, e))
  {
    if e.Send? {
      SendKeepsSound(s, e.uid, e.rate, e.parts, e.billed);
    } else {
      var after := Next(s, e);
      forall i | 0 <= i < |after.messages| ensures MessageSound(after, after.messages[i]) {
        assert MessageSound(s, s.messages[i]);
      }
    }
  }

  lemma SendConserves(s: State, v: Uid, rate: real, n: nat, billed: nat, u: Uid)
    requires Sound(s) && Enabled(s, Send(v, rate, n, billed)) && u in s.users
    ensures u in Next(s, Send(v, rate, n, billed)).users
    ensures Worth(Next(s, Send(v, rate, n, billed)).users[u]) + Spent(Next(s, Send(v, rate, n, billed)), u) ==
            Worth(s.users[u]) + Spent(s, u)
  {
    var q := s.users[v];
    var b := BillFor(rate, q);
    BillSplitsRate(rate, q);
    ChargedWhenFair(q, b, rate, n);
    SumAppend(s.messages, Accepted(v, rate, q, b, n, billed), u, PaidOf);
  }

  /** What one event does to what a user has and what they have spent: nothing but a top-up, or an administrator's new
      balance, changes the sum of the two. */
  lemma NextConserves(s: State, e: Event, u: Uid)
    requires Sound(s) && Enabled(s, e) && u in s.users && !(e.SetBalance? && e.uid == u)
    ensures u in Next(s, e).users
    ensures Worth(Next(s, e).users[u]) + Spent(Next(s, e), u) ==
            Worth(s.users[u]) + Spent(s, u) + if e.TopUp? && e.uid == u then e.amount else 0.0
  {
    match e
    case Send(v, rate, n, billed) => SendConserves(s, v, rate, n, billed, u);
    case Respond(i, ok) => SumUpdate(s.messages, i, Answered(s.messages[i], ok), u, PaidOf);
    case Request(i) =>
      assert MessageSound(s, s.messages[i]);
      SumUpdate(s.messages, i, Next(s, e).messages[i], u, PaidOf);
    case _ =>
  }

  function TopUps(es: seq<Event>, u: Uid): real {
    if es == [] then 0.0
    else TopUps(es[..|es| - 1], u) +
         if es[|es| - 1].TopUp? && es[|es| - 1].uid == u then es[|es| - 1].amount else 0.0
  }

  predicate AllValid(users: map<Uid, Quotas>) { forall u :: u in users ==> Valid(users[u]) }

  lemma {:induction false} RunIsSound(users: map<Uid, Quotas>, es: seq<Event>)
    requires AllValid(users) && Legal(users, es)
    ensures Sound(Run(users, es)) && Run(users, es).users.Keys == users.Keys
  {
    if es != [] {
      var before := es[..|es| - 1];
      LastStep(users, es);
      RunIsSound(users, before);
      NextKeepsSound(Run(users, before), es[|es| - 1]);
      var s := Run(users, before);
      forall i | 0 <= i < |s.messages| ensures s.messages[i].uid in s.users { assert MessageSound(s, s.messages[i]); }
    }
  }

  predicate Resets(e: Event, u: Uid) { e.SetBalance? && e.uid == u }

  /** Conservation over every history: what a user has left is what they were given less what their messages have been
      debited, to the last fraction, and it is never negative. */
  lemma {:induction false} BalanceIsConserved(users: map<Uid, Quotas>, es: seq<Event>, u: Uid)
    requires AllValid(users) && Legal(users, es) && u in users
    requires forall k :: 0 <= k < |es| ==> !Resets(es[k], u)
    ensures u in Run(users, es).users
    ensures Worth(Run(users, es).users[u]) == Worth(users[u]) + TopUps(es, u) - Spent(Run(users, es), u)
    ensures Worth(Run(users, es).users[u]) >= 0.0
  {
    RunIsSound(users, es);
    if es != [] {
      var before := es[..|es| - 1];
      LastStep(users, es);
      forall k | 0 <= k < |before| ensures !Resets(before[k], u) { assert !Resets(es[k], u); }
      BalanceIsConserved(users, before, u);
      RunIsSound(users, before);
      assert !Resets(es[|es| - 1], u);
      NextConserves(Run(users, before), es[|es| - 1], u);
    }
  }

  /** Of a limited balance the early share of the rate is debited at once for each part, and the rest of it is due on
      the response for each part that is billed. */
  predicate SplitsPrice(m: Message) {
    m.limited ==>
      && 100.0 * m.early == m.rate * m.share * m.parts as real
      && 100.0 * m.late == m.rate * (100.0 - m.share) * m.billed as real
  }

  lemma HundredTimes(a: real, c: real, n: nat)
    requires 100.0 * a == c
    ensures 100.0 * Times(a, n) == c * n as real
  {
    TimesHundred(a, n);
    TimesIsProduct(c, n);
  }

  lemma AcceptedSplits(u: Uid, rate: real, q: Quotas, b: Bill, n: nat, billed: nat)
    requires Fair(b, rate, q)
    ensures SplitsPrice(Accepted(u, rate, q, b, n, billed))
  {
    if q.balance.Some? {
      HundredTimes(b.submit, rate * Share(q), n);
      assert rate * (100.0 - Share(q)) == 100.0 * rate - rate * Share(q);
      HundredTimes(b.resp, rate * (100.0 - Share(q)), billed);
    }
  }

  /** At most the rate for each part is debited; all of it exactly when the route is free, or the balance was limited
      and either nothing was due on the response or the response was billed for every part and the bill request
      accepted. */
  predicate PaysAtMostPrice(m: Message) {
    var price := m.rate * m.parts as real;
    && 0.0 <= PaidOf(m) <= price
    && (PaidOf(m) == price <==>
        m.rate == 0.0 || (m.limited && (m.late == 0.0 || (m.phase.Paid? && m.billed == m.parts))))
  }

  lemma SoundPaysAtMostPrice(s: State, m: Message)
    requires MessageSound(s, m)
    ensures PaysAtMostPrice(m)
  {
    TimesSign(m.rate, m.parts);
    TimesIsProduct(m.rate, m.parts);
  }

  lemma OnlyPhaseChanges(s: State, e: Event, i: nat)
    requires Enabled(s, e) && i < |s.messages|
    ensures i < |Next(s, e).messages| && Next(s, e).messages[i].(phase := Sent) == s.messages[i].(phase := Sent)
  {
  }

  predicate AskedFor(m: Message) { m.phase in {Requested, Paid, Refused, Forgotten} }

  /** The second part of a price is asked for exactly when something is due and the message was answered with success.
      */
  lemma {:induction false} AskedForIff(users: map<Uid, Quotas>, es: seq<Event>, i: nat)
    requires Legal(users, es) && i < |Run(users, es).messages|
    ensures var m := Run(users, es).messages[i];
            && (AskedFor(m) <==> m.late > 0.0 && Respond(i, true) in es)
            && (m.phase.Sent? <==> Respond(i, true) !in es && Respond(i, false) !in es)
  {
    var n := |es| - 1;
    var before := es[..n];
    LastStep(users, es);
    assert es == before + [es[n]];
    if i < |Run(users, before).messages| { AskedForIff(users, before, i); } else { NotYetAnswered(users, before, i); }
  }

  lemma {:induction false} NotYetAnswered(users: map<Uid, Quotas>, es: seq<Event>, i: nat)
    requires Legal(users, es) && i >= |Run(users, es).messages|
    ensures Respond(i, true) !in es && Respond(i, false) !in es
  {
    if es != [] {
      LastStep(users, es);
      assert es == es[..|es| - 1] + [es[|es| - 1]];
      NotYetAnswered(users, es[..|es| - 1], i);
    }
  }

  /** The message an accepted send leaves. */
  predicate SentBy(s: State, e: Event, m: Message) {
    && e.Send? && e.uid in s.users
    && var q := s.users[e.uid];
       var b := BillFor(e.rate, q);
       Submit(q, b, e.parts).1.Charged? && m == Accepted(e.uid, e.rate, q, b, e.parts, e.billed)
  }

  /** The rate, the share, the parts and the amounts kept with a message are those of the send that was accepted, and
      the amounts are the shares of the price at the user's percentage then. */
  lemma {:induction false} MessageWasSent(users: map<Uid, Quotas>, es: seq<Event>, i: nat) returns (k: nat)
    requires AllValid(users) && Legal(users, es) && i < |Run(users, es).messages|
    ensures k < |es|
    ensures SentBy(Run(users, es[..k]), es[k], Run(users, es).messages[i].(phase := Sent))
    ensures SplitsPrice(Run(users, es).messages[i].(phase := Sent))
  {
    var n := |es| - 1;
    var before := es[..n];
    LastStep(users, es);
    if i < |Run(users, before).messages| {
      k := MessageWasSent(users, before, i);
      OnlyPhaseChanges(Run(users, before), es[n], i);
      assert es[..k] == before[..k];
    } else {
      k := n;
      RunIsSound(users, before);
      var q := Run(users, before).users[es[n].uid];
      BillSplitsRate(es[n].rate, q);
      AcceptedSplits(es[n].uid, es[n].rate, q, BillFor(es[n].rate, q), es[n].parts, es[n].billed);
    }
  }

  lemma MessagePaysAtMostPrice(users: map<Uid, Quotas>, es: seq<Event>, i: nat)
    requires AllValid(users) && Legal(users, es) && i < |Run(users, es).messages|
    ensures PaysAtMostPrice(Run(users, es).messages[i])
  {
    RunIsSound(users, es);
    var s := Run(users, es);
    assert MessageSound(s, s.messages[i]);
    SoundPaysAtMostPrice(s, s.messages[i]);
  }

  lemma SplitsInAnyPhase(m: Message)
    requires SplitsPrice(m.(phase := Sent))
    ensures SplitsPrice(m)
  {
  }

  lemma MessageSplitsPrice(users: map<Uid, Quotas>, es: seq<Event>, i: nat)
    requires AllValid(users) && Legal(users, es) && i < |Run(users, es).messages|
    ensures SplitsPrice(Run(users, es).messages[i])
  {
    var k := MessageWasSent(users, es, i);
    SplitsInAnyPhase(Run(users, es).messages[i]);
  }

  /** So it is of every message in every run. */
  lemma NobodyOverpays(users: map<Uid, Quotas>, es: seq<Event>, i: nat)
    requires AllValid(users) && Legal(users, es) && i < |Run(users, es).messages|
    ensures PaysAtMostPrice(Run(users, es).messages[i]) && SplitsPrice(Run(users, es).messages[i])
  {
    MessagePaysAtMostPrice(users, es, i);
    MessageSplitsPrice(users, es, i);
  }

  // Whether the second part of a price can be collected

  /** The balance covers everything the user's accepted messages may still ask for. */
  predicate Covered(s: State, u: Uid) { u in s.users && Owed(s, u) <= Worth(s.users[u]) }

  lemma {:induction false} OwedAtLeast(s: State, ms: seq<Message>, i: nat)
    requires i < |ms| && forall k :: 0 <= k < |ms| ==> MessageSound(s, ms[k])
    ensures 0.0 <= OwedOf(ms[i]) <= Sum(ms, ms[i].uid, OwedOf)
  {
    var k := |ms| - 1;
    assert MessageSound(s, ms[k]);
    if i < k {
      OwedAtLeast(s, ms[..k], i);
    } else {
      OwedNonNegative(s, ms[..k], ms[i].uid);
    }
  }

  lemma {:induction false} OwedNonNegative(s: State, ms: seq<Message>, u: Uid)
    requires forall k :: 0 <= k < |ms| ==> MessageSound(s, ms[k])
    ensures 0.0 <= Sum(ms, u, OwedOf)
  {
    if ms != [] {
      OwedNonNegative(s, ms[..|ms| - 1], u);
      assert MessageSound(s, ms[|ms| - 1]);
    }
  }

  /** A bill request of a covered user is accepted. */
  lemma CoveredRequestIsPaid(s: State, i: nat)
    requires Sound(s) && Enabled(s, Request(i)) && Covered(s, s.messages[i].uid)
    ensures Next(s, Request(i)).messages[i].phase.Paid?
  {
    OwedAtLeast(s, s.messages, i);
    assert MessageSound(s, s.messages[i]);
  }

  /** The message this event would add to the user's debts without the balance to cover it. */
  predicate Overcommits(s: State, e: Event, u: Uid) {
    && e.Send? && e.uid == u && u in s.users
    && var q := s.users[u];
       var b := BillFor(e.rate, q);
       && Submit(q, b, e.parts).1.Charged?
       && Worth(q) < Owed(s, u) + Times(b.submit, e.parts) + Times(b.resp, e.billed)
  }

  lemma SendKeepsCoveredIff(s: State, u: Uid, rate: real, n: nat, billed: nat)
    requires Sound(s) && Enabled(s, Send(u, rate, n, billed)) && Covered(s, u)
    ensures Covered(Next(s, Send(u, rate, n, billed)), u) <==> !Overcommits(s, Send(u, rate, n, billed), u)
  {
    var q := s.users[u];
    var b := BillFor(rate, q);
    BillSplitsRate(rate, q);
    ChargedWhenFair(q, b, rate, n);
    PriceSplits(q, b, rate, n);
    SumAppend(s.messages, Accepted(u, rate, q, b, n, billed), u, OwedOf);
  }

  /** Nothing but an accepted message priced above what is free of the balance ends the cover. */
  lemma NextKeepsCoveredIff(s: State, e: Event, u: Uid)
    requires Sound(s) && Enabled(s, e) && Covered(s, u) && !Resets(e, u)
    ensures Covered(Next(s, e), u) <==> !Overcommits(s, e, u)
  {
    match e
    case Send(v, rate, n, billed) =>
      if v == u {
        SendKeepsCoveredIff(s, u, rate, n, billed);
      } else {
        var q := s.users[v];
        SumAppend(s.messages, Accepted(v, rate, q, BillFor(rate, q), n, billed), u, OwedOf);
      }
    case Respond(i, ok) =>
      assert MessageSound(s, s.messages[i]);
      SumUpdate(s.messages, i, Answered(s.messages[i], ok), u, OwedOf);
    case Request(i) =>
      assert MessageSound(s, s.messages[i]);
      SumUpdate(s.messages, i, Next(s, e).messages[i], u, OwedOf);
      if s.messages[i].uid == u { CoveredRequestIsPaid(s, i); }
    case _ =>
  }

  predicate OvercommitsAt(users: map<Uid, Quotas>, es: seq<Event>, k: nat, u: Uid)
    requires k < |es|
  {
    Overcommits(Run(users, es[..k]), es[k], u)
  }

  predicate Settled(m: Message, u: Uid) { m.uid == u ==> !m.phase.Refused? && !m.phase.Forgotten? }

  ghost predicate AllSettled(s: State, u: Uid) {
    forall i :: 0 <= i < |s.messages| ==> Settled(s.messages[i], u)
  }

  /** If no message was accepted beyond what the balance leaves free of earlier debts, every bill request of the user
      that was handled was paid. */
  lemma {:induction false} EveryRequestIsPaid(users: map<Uid, Quotas>, es: seq<Event>, u: Uid)
    requires AllValid(users) && Legal(users, es) && u in users
    requires forall k :: 0 <= k < |es| ==> !Resets(es[k], u)
    requires forall k :: 0 <= k < |es| ==> !OvercommitsAt(users, es, k, u)
    ensures Covered(Run(users, es), u)
    ensures AllSettled(Run(users, es), u)
  {
    if es != [] {
      var n := |es| - 1;
      var before := es[..n];
      LastStep(users, es);
      forall k | 0 <= k < |before| ensures !Resets(before[k], u) { assert !Resets(es[k], u); }
      forall k | 0 <= k < |before| ensures !OvercommitsAt(users, before, k, u) {
        assert before[..k] == es[..k] && before[k] == es[k];
        assert !OvercommitsAt(users, es, k, u);
      }
      EveryRequestIsPaid(users, before, u);
      RunIsSound(users, before);
      assert !OvercommitsAt(users, es, n, u) && !Resets(es[n], u);
      NextKeepsCoveredIff(Run(users, before), es[n], u);
      NextKeepsSettled(Run(users, before), es[n], u);
    } else {
      assert Owed(Run(users, es), u) == 0.0;
    }
  }

  lemma NextKeepsSettled(s: State, e: Event, u: Uid)
    requires Sound(s) && Enabled(s, e) && Covered(s, u)
    requires AllSettled(s, u)
    ensures AllSettled(Next(s, e), u)
  {
    if e.Request? && s.messages[e.i].uid == u { CoveredRequestIsPaid(s, e.i); }
    var after := Next(s, e);
    forall i | 0 <= i < |after.messages| ensures Settled(after.messages[i], u) {
      if i < |s.messages| { assert Settled(s.messages[i], u); }
    }
  }

  /** Events that give the user no money and ask for all they owe. */
  predicate Quiet(e: Event, u: Uid) {
    match e
    case Send(v, _, _, _) => v != u
    case Respond(_, ok) => ok
    case Request(_) => true
    case TopUp(v, _) => v != u
    case SetBalance(v, _) => v != u
  }

  lemma NextKeepsUncovered(s: State, e: Event, u: Uid)
    requires Sound(s) && Enabled(s, e) && u in s.users && !Covered(s, u) && Quiet(e, u)
    requires AllSettled(Next(s, e), u)
    ensures !Covered(Next(s, e), u)
  {
    var after := Next(s, e);
    match e
    case Send(v, rate, n, billed) =>
      var q := s.users[v];
      SumAppend(s.messages, Accepted(v, rate, q, BillFor(rate, q), n, billed), u, OwedOf);
    case Respond(i, ok) =>
      assert MessageSound(s, s.messages[i]);
      SumUpdate(s.messages, i, Answered(s.messages[i], ok), u, OwedOf);
    case Request(i) =>
      assert MessageSound(s, s.messages[i]) && Settled(after.messages[i], u);
      SumUpdate(s.messages, i, after.messages[i], u, OwedOf);
    case _ =>
  }

  /** The converse: once the balance does not cover the debts, and without more money, the debts cannot all be asked for
      and settled. */
  lemma {:induction false} UncoveredLosesSome(users: map<Uid, Quotas>, es: seq<Event>, k: nat, u: Uid)
    requires AllValid(users) && u in users && Legal(users, es)
    requires k <= |es| && !Covered(Run(users, es[..k]), u)
    requires forall j :: k <= j < |es| ==> Quiet(es[j], u)
    requires AllSettled(Run(users, es), u)
    ensures u in Run(users, es).users && Owed(Run(users, es), u) > Worth(Run(users, es).users[u]) >= 0.0
  {
    RunIsSound(users, es);
    UncoveredStays(users, es, k, u);
  }

  lemma {:induction false} UncoveredStays(users: map<Uid, Quotas>, es: seq<Event>, k: nat, u: Uid)
    requires AllValid(users) && u in users && Legal(users, es)
    requires k <= |es| && !Covered(Run(users, es[..k]), u)
    requires forall j :: k <= j < |es| ==> Quiet(es[j], u)
    requires AllSettled(Run(users, es), u)
    ensures !Covered(Run(users, es), u)
  {
    if k == |es| {
      assert es[..k] == es;
    } else {
      var n := |es| - 1;
      var before := es[..n];
      LastStep(users, es);
      RunIsSound(users, before);
      assert before[..k] == es[..k];
      assert Quiet(es[n], u);
      SettledBefore(Run(users, before), es[n], u);
      UncoveredStays(users, before, k, u);
      NextKeepsUncovered(Run(users, before), es[n], u);
    }
  }

  lemma SettledBefore(s: State, e: Event, u: Uid)
    requires Enabled(s, e) && AllSettled(Next(s, e), u)
    ensures AllSettled(s, u)
  {
    forall i | 0 <= i < |s.messages| ensures Settled(s.messages[i], u) {
      assert Settled(Next(s, e).messages[i], u);
    }
  }

  /** A user who pays half at once, with a balance and messages. */
  function Half(u: Uid, balance: real, ms: seq<Message>): State {
    State(map[u := Quotas(Some(balance), Some(50.0), None)], ms)
  }

  function HalfPaid(u: Uid, phase: Phase): Message { Message(u, 1.0, 50.0, 1, 1, true, 0.5, 0.5, phase) }

  lemma HalfSends(u: Uid, balance: real, ms: seq<Message>)
    requires balance >= 1.0
    ensures Enabled(Half(u, balance, ms), Send(u, 1.0, 1, 1))
    ensures Next(Half(u, balance, ms), Send(u, 1.0, 1, 1)) == Half(u, balance - 0.5, ms + [HalfPaid(u, Sent)])
  {
    var q := Quotas(Some(balance), Some(50.0), None);
    assert BillFor(1.0, q) == Bill(0.5, 0.5, false);
    assert Times(0.5, 1) == Times(0.5, 0) + 0.5 == 0.5 && Times(1.0, 1) == Times(1.0, 0) + 1.0 == 1.0;
    assert Submit(q, Bill(0.5, 0.5, false), 1) == (q.(balance := Some(balance - 0.5)), Charged);
  }

  lemma HalfAnswers(u: Uid, balance: real, ms: seq<Message>, i: nat)
    requires i < |ms| && ms[i] == HalfPaid(u, Sent)
    ensures Enabled(Half(u, balance, ms), Respond(i, true))
    ensures Next(Half(u, balance, ms), Respond(i, true)) == Half(u, balance, ms[i := HalfPaid(u, Requested)])
  {
  }

  lemma HalfCollects(u: Uid, balance: real, ms: seq<Message>, i: nat)
    requires i < |ms| && ms[i] == HalfPaid(u, Requested)
    ensures var enough := balance >= 0.5;
            Next(Half(u, balance, ms), Request(i)) ==
            Half(u, if enough then balance - 0.5 else balance, ms[i := HalfPaid(u, if enough then Paid else Refused)])
  {
  }

  /** A run of the user from a balance of 1.6 that has led to this balance and these messages. */
  ghost predicate LedTo(u: Uid, es: seq<Event>, balance: real, ms: seq<Message>) {
    var users := map[u := Quotas(Some(1.6), Some(50.0), None)];
    Legal(users, es) && Run(users, es) == Half(u, balance, ms)
  }

  lemma LedFurther(u: Uid, es: seq<Event>, balance: real, ms: seq<Message>, e: Event, left: real, after: seq<Message>)
    requires LedTo(u, es, balance, ms) && Enabled(Half(u, balance, ms), e)
    requires Next(Half(u, balance, ms), e) == Half(u, left, after)
    ensures LedTo(u, es + [e], left, after)
  {
    var users, more := map[u := Quotas(Some(1.6), Some(50.0), None)], es + [e];
    assert more[..|es|] == es;
    forall k | 0 <= k < |more| ensures EnabledAt(users, more, k) {
      if k < |es| { assert EnabledAt(users, es, k) && more[..k] == es[..k]; }
    }
  }

  lemma BothAccepted(u: Uid)
    ensures LedTo(u, [] + [Send(u, 1.0, 1, 1)] + [Send(u, 1.0, 1, 1)], 0.6, [HalfPaid(u, Sent), HalfPaid(u, Sent)])
  {
    var e, sent := Send(u, 1.0, 1, 1), HalfPaid(u, Sent);
    HalfSends(u, 1.6, []);
    LedFurther(u, [], 1.6, [], e, 1.1, [sent]);
    HalfSends(u, 1.1, [sent]);
    LedFurther(u, [] + [e], 1.1, [sent], e, 0.6, [sent, sent]);
  }

  lemma BothRequested(u: Uid, es: seq<Event>)
    requires LedTo(u, es, 0.6, [HalfPaid(u, Sent), HalfPaid(u, Sent)])
    ensures LedTo(u, es + [Respond(0, true)] + [Respond(1, true)], 0.6,
                  [HalfPaid(u, Requested), HalfPaid(u, Requested)])
  {
    var sent, asked := HalfPaid(u, Sent), HalfPaid(u, Requested);
    HalfAnswers(u, 0.6, [sent, sent], 0);
    assert [sent, sent][0 := asked] == [asked, sent];
    LedFurther(u, es, 0.6, [sent, sent], Respond(0, true), 0.6, [asked, sent]);
    HalfAnswers(u, 0.6, [asked, sent], 1);
    assert [asked, sent][1 := asked] == [asked, asked];
    LedFurther(u, es + [Respond(0, true)], 0.6, [asked, sent], Respond(1, true), 0.6, [asked, asked]);
  }

  lemma SecondRefused(u: Uid, es: seq<Event>)
    requires LedTo(u, es, 0.6, [HalfPaid(u, Requested), HalfPaid(u, Requested)])
    ensures LedTo(u, es + [Request(0)] + [Request(1)], 0.6 - 0.5, [HalfPaid(u, Paid), HalfPaid(u, Refused)])
  {
    var asked, paid, refused := HalfPaid(u, Requested), HalfPaid(u, Paid), HalfPaid(u, Refused);
    HalfCollects(u, 0.6, [asked, asked], 0);
    assert [asked, asked][0 := paid] == [paid, asked];
    LedFurther(u, es, 0.6, [asked, asked], Request(0), 0.6 - 0.5, [paid, asked]);
    HalfCollects(u, 0.6 - 0.5, [paid, asked], 1);
    assert [paid, asked][1 := refused] == [paid, refused];
    LedFurther(u, es + [Request(0)], 0.6 - 0.5, [paid, asked], Request(1), 0.6 - 0.5, [paid, refused]);
  }

  /** The requirements alone do not reserve the second part: of two messages at rate 1, half of it due at once, a user
      with 1.6 is let send both, and is then too poor for the last quarter of the bill. */
  lemma SecondPartCanBeLost(u: Uid)
    ensures var users := map[u := Quotas(Some(1.6), Some(50.0), None)];
            var es := [] + [Send(u, 1.0, 1, 1)] + [Send(u, 1.0, 1, 1)] + [Respond(0, true)] + [Respond(1, true)] +
                      [Request(0)] + [Request(1)];
            && Legal(users, es)
            && |Run(users, es).messages| == 2 && Run(users, es).messages[1].phase.Refused?
  {
    BothAccepted(u);
    BothRequested(u, [] + [Send(u, 1.0, 1, 1)] + [Send(u, 1.0, 1, 1)]);
    SecondRefused(u, [] + [Send(u, 1.0, 1, 1)] + [Send(u, 1.0, 1, 1)] + [Respond(0, true)] + [Respond(1, true)]);
  }

  // The code, on credentials that are updated in place

  class MtCredential {
    var balance: Option<real>
    var percent: Option<real>
    var count: Option<int>

    constructor (q: Quotas)
      ensures View() == q
    {
      balance, percent, count := q.balance, q.percent, q.count;
    }

    ghost function View(): Quotas reads this { Quotas(balance, percent, count) }

    method SetBalance(value: Option<real>) returns (ok: bool)
      modifies this`balance
      ensures ok <==> (value.Some? ==> value.value >= 0.0)
      ensures View() == if ok then old(View()).(balance := value) else old(View())
    {
      ok := value.None? || value.value >= 0.0;
      if ok { balance := value; }
    }

    method UpdateBalance(difference: real)
      modifies this`balance
      ensures View() == old(View()).(balance := Some(Worth(old(View())) + difference))
    {
      if balance.None? { balance := Some(0.0); }
      balance := Some(balance.value + difference);
    }

    method UpdateCount(difference: int)
      modifies this`count
      ensures View() ==
              old(View()).(count := Some((if old(count).Some? then old(count).value else 0) + difference))
    {
      if count.None? { count := Some(0); }
      count := Some(count.value + difference);
    }
  }

  const AMOUNTS := ["submit_sm", "submit_sm_resp"]
  const ACTION := "decrement_submit_sm_count"

  class SubmitSmBill {
    var amounts: map<string, real>
    var actions: map<string, int>

    ghost predicate Valid() reads this {
      amounts.Keys == {AMOUNTS[0], AMOUNTS[1]} && actions.Keys == {ACTION} && actions[ACTION] in {0, 1}
    }

    ghost function View(): Bill
      requires Valid()
      reads this
    {
      Bill(amounts[AMOUNTS[0]], amounts[AMOUNTS[1]], actions[ACTION] == 1)
    }

    constructor ()
      ensures Valid() && View() == Bill(0.0, 0.0, false)
    {
      amounts := map[AMOUNTS[0] := 0.0, AMOUNTS[1] := 0.0];
      actions := map[ACTION := 0];
    }

    /** Only the amounts of the bill can be set. */
    method SetAmount(key: string, amount: real) returns (ok: bool)
      requires Valid()
      modifies this`amounts
      ensures Valid() && (ok <==> key in AMOUNTS)
      ensures amounts == if ok then old(amounts)[key := amount] else old(amounts)
    {
      ok := key in amounts;
      if ok { amounts := amounts[key := amount]; }
    }

    method GetTotalAmounts() returns (total: real)
      requires Valid()
      ensures total == Total(View())
    {
      total := 0.0;
      for i := 0 to |AMOUNTS|
        invariant total == (if i > 0 then amounts[AMOUNTS[0]] else 0.0) + (if i > 1 then amounts[AMOUNTS[1]] else 0.0)
      {
        total := total + amounts[AMOUNTS[i]];
      }
    }
  }

  /** `getBillFor`, on a route with this rate. */
  method GetBillFor(rate: real, user: MtCredential) returns (bill: SubmitSmBill)
    ensures fresh(bill) && bill.Valid() && bill.View() == BillFor(rate, user.View())
    // the percentage of the rate at once and the rest later, all of it at once, or nothing
    ensures var b := bill.View();
            if rate > 0.0 && user.balance.Some? then
              && (user.percent.Some? ==> 100.0 * b.submit == rate * user.percent.value && b.resp == rate - b.submit)
              && (user.percent.None? ==> b.submit == rate && b.resp == 0.0)
            else b.submit == 0.0 && b.resp == 0.0
    ensures bill.View().counted <==> user.count.Some?
  {
    bill := new SubmitSmBill();
    if rate > 0.0 && user.balance.Some? {
      if user.percent.Some? {
        var early := PercentOf(rate, user.percent.value);
        var _ := bill.SetAmount(AMOUNTS[0], early);
        var _ := bill.SetAmount(AMOUNTS[1], rate - early);
      } else {
        var _ := bill.SetAmount(AMOUNTS[0], rate);
        var _ := bill.SetAmount(AMOUNTS[1], 0.0);
      }
    }
    if user.count.Some? { bill.actions := bill.actions[ACTION := 1]; }
  }

  /** `chargeUserForSubmitSms`; the user is null when the router does not know them. */
  method ChargeUserForSubmitSms(user: MtCredential?, bill: Bill, n: nat, requirements: seq<bool>)
      returns (v: Verdict)
    modifies user
    ensures user != null ==> (user.View(), v) == Charge(old(user.View()), bill, n, requirements)
    ensures user == null ==>
              v == if !Met(requirements) then Declined
                   else if Times(bill.submit, n) > 0.0 || (bill.counted && n > 0) then Crashed
                   else Charged
  {
    for i := 0 to |requirements|
      invariant Met(requirements[..i])
      invariant user != null ==> user.View() == old(user.View())
    {
      if !requirements[i] { return Declined; }
    }
    assert requirements[..|requirements|] == requirements;
    var amount := Times(bill.submit, n);
    if amount > 0.0 {
      if user == null { return Crashed; }
      if user.balance.Some? {
        if user.balance.value < amount { return Declined; }
        user.UpdateBalance(-amount);
      }
    }
    if Messages(bill, n) > 0 {
      if user == null { return Crashed; }
      if user.count.Some? {
        if user.count.value < Messages(bill, n) { return Declined; }
        user.UpdateCount(0 - Messages(bill, n));
      }
    }
    v := Charged;
  }

  /** `bill_request_submit_sm_resp_callback`. */
  method BillRequestCallback(user: MtCredential?, amount: real) returns (r: Settlement)
    modifies user
    ensures user == null ==> r == Collect(None, amount).1 == Rejected
    ensures user != null ==> (Some(user.View()), r) == Collect(Some(old(user.View())), amount)
    // acknowledged exactly when the balance covers the amount, and then debited by it
    ensures user != null ==> (r.Acked? <==> old(user.balance).Some? && amount <= old(user.balance).value)
    ensures user != null ==> (r.Unsettled? <==> old(user.balance).None?)
    ensures user != null ==>
              user.View() == if r.Acked? then old(user.View()).(balance := Some(old(user.balance).value - amount))
                             else old(user.View())
  {
    if user == null { return Rejected; }
    r := Unsettled;
    if user.balance.Some? {
      if user.balance.value < amount {
        r := Rejected;
      } else {
        user.UpdateBalance(-amount);
        r := Acked;
      }
    }
  }
}
