/** The throwers keep their counters and timers by message id, and a client that asked for every receipt is sent two
    under one id: one for the response, one for the receipt. Here several messages of one id may be on their way at
    once, and a throw may be under way while another message is handed over. */
module SharedIds {
  import opened Redelivery

  /** The counters, and for each id the delivery its active timer will return. */
  datatype Book = Book(counts: map<Id, nat>, held: map<Id, Delivery>)

  function CountOf(b: Book, id: Id): nat { if id in b.counts then b.counts[id] else 0 }

  /** A message is handed over: it is counted, and in all callbacks but the one for SMPP receipts the timer of its id
      is cleared. */
  function Taken(b: Book, id: Id, clears: bool): Book {
    Book(b.counts[id := CountOf(b, id) + 1], if clears then b.held - {id} else b.held)
  }

  /** Its throw ends. A message that is held takes the place of the one held for its id. */
  function Closed(limit: int, b: Book, d: Delivery, o: Outcome): (Book, Action) {
    match o
    case Succeeded => (b.(counts := b.counts - {d.id}), Ack)
    case Refused => (b.(counts := b.counts - {d.id}), Drop)
    case Failed =>
      if CountOf(b, d.id) < limit then (b.(held := b.held[d.id := d]), Hold)
      else (b.(counts := b.counts - {d.id}), Drop)
    case Abandoned => (b, Leave)
  }

  function TrackerOf(b: Book): Tracker { Tracker(b.counts, b.held.Keys) }

  /** With no other message of the id held, a throw is the `Settle` of a message that has its id to itself. */
  lemma ClosedSettles(limit: int, b: Book, d: Delivery, o: Outcome, clears: bool)
    requires clears || d.id !in b.held
    ensures var (b', a) := Closed(limit, Taken(b, d.id, clears), d, o);
            (TrackerOf(b'), a) == Settle(limit, TrackerOf(b), d.id, o)
  {
    var taken := Taken(b, d.id, clears);
    assert taken.held.Keys == b.held.Keys - {d.id};
    assert Closed(limit, taken, d, o).0.held.Keys == Settle(limit, TrackerOf(b), d.id, o).0.timers;
  }

  // ---- Runs ----

  datatype Place = Ready | Thrown | Out | Settled

  /** A message in the broker's queue, under way, out of the queue after its throw, or settled; with the deliveries
      made of it and the broker calls that answered them. */
  datatype Parcel = Parcel(id: Id, place: Place, deliveries: nat, calls: nat)

  /** Messages are named by the tag of their deliveries, which is taken to stay the same. */
  datatype Depot = Depot(book: Book, parcels: map<nat, Parcel>)

  datatype Move = Post(x: nat, id: Id) | Hand(x: nat, clears: bool) | End(x: nat, outcome: Outcome) | Ring(id: Id)

  const Start := Depot(Book(map[], map[]), map[])

  predicate At(w: Depot, x: nat, p: Place) { x in w.parcels && w.parcels[x].place == p }

  predicate Enabled(w: Depot, e: Move) {
    match e
    case Post(x, _) => x !in w.parcels
    case Hand(x, _) => At(w, x, Ready)
    case End(x, _) => At(w, x, Thrown)
    case Ring(id) => id in w.book.held && w.book.held[id].tag in w.parcels
  }

  function Landed(p: Parcel, a: Action): Parcel {
    if a.Ack? || a.Drop? then p.(place := Settled, calls := p.calls + 1) else p.(place := Out)
  }

  /** What an event makes of the depot; one that cannot happen there changes nothing. */
  function Next(limit: int, w: Depot, e: Move): Depot {
    if !Enabled(w, e) then w else
    match e
    case Post(x, id) => w.(parcels := w.parcels[x := Parcel(id, Ready, 0, 0)])
    case Hand(x, clears) =>
      var p := w.parcels[x];
      Depot(Taken(w.book, p.id, clears), w.parcels[x := p.(place := Thrown, deliveries := p.deliveries + 1)])
    case End(x, o) =>
      var p := w.parcels[x];
      var (b, a) := Closed(limit, w.book, Delivery(x, p.id), o);
      Depot(b, w.parcels[x := Landed(p, a)])
    case Ring(id) =>
      var x := w.book.held[id].tag;
      var p := w.parcels[x];
      Depot(w.book.(held := w.book.held - {id}), w.parcels[x := p.(place := Ready, calls := p.calls + 1)])
  }

  function Run(limit: int, es: seq<Move>): Depot {
    if es == [] then Start else Next(limit, Run(limit, es[..|es| - 1]), es[|es| - 1])
  }

  /** A timer will return message `x` to the queue. */
  predicate Held(w: Depot, x: nat) {
    x in w.parcels && w.parcels[x].id in w.book.held && w.book.held[w.parcels[x].id].tag == x
  }

  /** Message `x` was thrown and taken for done without a broker call, and no timer is left that would make one. */
  predicate Lost(w: Depot, x: nat) { At(w, x, Out) && !Held(w, x) }

  predicate ParcelSound(w: Depot, x: nat) {
    x in w.parcels ==>
      var p := w.parcels[x];
      && p.deliveries == p.calls + (if p.place.Thrown? || p.place.Out? then 1 else 0)
      && (Held(w, x) ==> p.place.Out?)
  }

  predicate TimerSound(w: Depot, id: Id) {
    id in w.book.held ==>
      var d := w.book.held[id];
      d.id == id && d.tag in w.parcels && w.parcels[d.tag].id == id
  }

  ghost predicate Sound(w: Depot) {
    && (forall x :: ParcelSound(w, x))
    && (forall id :: TimerSound(w, id))
  }

  lemma NextKeepsSound(limit: int, w: Depot, e: Move)
    requires Sound(w)
    ensures Sound(Next(limit, w, e))
  {
    var w' := Next(limit, w, e);
    forall id ensures TimerSound(w', id) { assert TimerSound(w, id); }
    forall x ensures ParcelSound(w', x) {
      assert ParcelSound(w, x);
      if Enabled(w, e) && x in w.parcels { assert TimerSound(w, w.parcels[x].id); }
      if e.Post? || e.Ring? { assert TimerSound(w, e.id); }
    }
  }

  /** In every run a message has had one broker call for each of its deliveries, but for the one that is under way, held
      or lost; and every timer is for a message that is out. */
  lemma {:induction false} RunIsSound(limit: int, es: seq<Move>)
    ensures Sound(Run(limit, es))
  {
    if es != [] {
      RunIsSound(limit, es[..|es| - 1]);
      NextKeepsSound(limit, Run(limit, es[..|es| - 1]), es[|es| - 1]);
    }
  }

  predicate SameId(w: Depot, x: nat, y: nat) {
    x in w.parcels && y in w.parcels && w.parcels[x].id == w.parcels[y].id
  }

  /** The events that lose message `x`: its throw is abandoned, or while it is held another message of its id is handed
      to a callback that clears the timer, or is held in its turn. */
  predicate Loses(limit: int, w: Depot, e: Move, x: nat) {
    && Enabled(w, e)
    && match e
       case Hand(y, clears) => clears && Held(w, x) && SameId(w, x, y)
       case End(y, o) =>
         if y == x then o.Abandoned?
         else o.Failed? && Held(w, x) && SameId(w, x, y) && CountOf(w.book, w.parcels[y].id) < limit
       case _ => false
  }

  lemma LostStep(limit: int, w: Depot, e: Move, x: nat)
    requires Sound(w)
    ensures Lost(Next(limit, w, e), x) <==> Lost(w, x) || Loses(limit, w, e, x)
  {
    assert ParcelSound(w, x);
    if x in w.parcels { assert TimerSound(w, w.parcels[x].id); }
    if e.Ring? { assert TimerSound(w, e.id); }
  }

  predicate LosesAt(limit: int, es: seq<Move>, k: nat, x: nat) {
    k < |es| && Loses(limit, Run(limit, es[..k]), es[k], x)
  }

  lemma LosesBefore(limit: int, es: seq<Move>, k: nat, x: nat)
    requires es != [] && k < |es| - 1
    ensures LosesAt(limit, es, k, x) <==> LosesAt(limit, es[..|es| - 1], k, x)
  {
    assert es[..|es| - 1][..k] == es[..k];
  }

  /** In every run: a message is lost exactly when one of the events that lose it has happened, and then for good. */
  lemma {:induction false} LostIff(limit: int, es: seq<Move>, x: nat)
    ensures Lost(Run(limit, es), x) <==> exists k: nat :: LosesAt(limit, es, k, x)
  {
    if es != [] {
      var before, n := es[..|es| - 1], |es| - 1;
      LostIff(limit, before, x);
      RunIsSound(limit, before);
      LostStep(limit, Run(limit, before), es[n], x);
      assert LosesAt(limit, es, n, x) <==> Loses(limit, Run(limit, before), es[n], x);
      if k: nat :| LosesAt(limit, before, k, x) { LosesBefore(limit, es, k, x); }
      if k: nat :| LosesAt(limit, es, k, x) && k < n { LosesBefore(limit, es, k, x); }
    }
  }

  /** A message that has its id to itself. */
  ghost predicate Alone(w: Depot, x: nat) { forall y: nat :: SameId(w, x, y) ==> y == x }

  lemma {:induction false} ParcelsStay(limit: int, es: seq<Move>, k: nat, x: nat)
    requires k <= |es| && x in Run(limit, es[..k]).parcels
    ensures x in Run(limit, es).parcels && Run(limit, es).parcels[x].id == Run(limit, es[..k]).parcels[x].id
  {
    if k == |es| {
      assert es[..k] == es;
    } else {
      assert es[..|es| - 1][..k] == es[..k];
      ParcelsStay(limit, es[..|es| - 1], k, x);
    }
  }

  /** Such a message is lost exactly when a throw of it is abandoned. */
  lemma AloneLostIff(limit: int, es: seq<Move>, x: nat)
    requires Alone(Run(limit, es), x)
    ensures Lost(Run(limit, es), x) <==>
            exists k: nat :: LosesAt(limit, es, k, x) && es[k] == End(x, Abandoned)
  {
    LostIff(limit, es, x);
    forall k: nat | LosesAt(limit, es, k, x) ensures es[k] == End(x, Abandoned) {
      var w, e := Run(limit, es[..k]), es[k];
      RunIsSound(limit, es[..k]);
      assert ParcelSound(w, x);
      if e != End(x, Abandoned) {
        ParcelsStay(limit, es, k, x);
        ParcelsStay(limit, es, k, e.x);
        assert SameId(Run(limit, es), x, e.x);
      }
    }
  }

  lemma RunOnce(limit: int, es: seq<Move>, e: Move)
    ensures Run(limit, es + [e]) == Next(limit, Run(limit, es), e)
  {
    assert (es + [e])[..|es|] == es;
  }

  /** Two receipts of one message: the first fails and waits for its retry; the second, once handed over, whatever comes
      of it, has lost the first. */
  lemma SecondLosesFirst(limit: int, id: Id, o: Outcome)
    requires limit > 1
    ensures Lost(Run(limit, [Post(0, id), Hand(0, true), End(0, Failed), Post(1, id), Hand(1, true), End(1, o)]), 0)
  {
    var first := [Post(0, id), Hand(0, true), End(0, Failed)];
    RunOnce(limit, [], Post(0, id));
    RunOnce(limit, [Post(0, id)], Hand(0, true));
    RunOnce(limit, [Post(0, id), Hand(0, true)], End(0, Failed));
    assert [] + [Post(0, id)] == [Post(0, id)];
    assert [Post(0, id)] + [Hand(0, true)] == [Post(0, id), Hand(0, true)];
    assert [Post(0, id), Hand(0, true)] + [End(0, Failed)] == first;
    assert Held(Run(limit, first), 0);
    RunOnce(limit, first, Post(1, id));
    RunOnce(limit, first + [Post(1, id)], Hand(1, true));
    RunOnce(limit, first + [Post(1, id)] + [Hand(1, true)], End(1, o));
    assert first + [Post(1, id)] + [Hand(1, true)] + [End(1, o)] ==
           [Post(0, id), Hand(0, true), End(0, Failed), Post(1, id), Hand(1, true), End(1, o)];
  }
}
