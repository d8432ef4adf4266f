/** The SMPP server's account of who is bound: bind managers by system id, and connection statuses (the number of bound
    connections of each type and the roster of bound peers) that users look up by their uid. A user who replaces
    another takes over the other's status, so one status may serve several uids. */
module Bindings {
  import opened Basics

  type SystemId = string
  type Uid = string
  type SessionId = string

  /** A status is named after the uid it was made for. */
  type Name = Uid

  datatype Kind = Transmitter | Receiver | Transceiver

  /** A bound session. */
  datatype Session = Session(system: SystemId, kind: Kind)

  /** The manager of a system id belongs to the user who bound first. */
  datatype Manager = Manager(owner: Uid, binds: set<SessionId>)

  datatype Entry = Entry(id: SessionId, kind: Kind)

  datatype Status = Status(tx: int, rx: int, trx: int, roster: seq<Entry>)

  /** A user of the router, with the credential that matters here. */
  datatype User = User(uid: Uid, username: SystemId, mayBind: bool, maxBindings: Option<nat>)

  datatype State = State(
    users: seq<User>,
    sessions: map<SessionId, Session>,
    managers: map<SystemId, Manager>,
    stats: map<Uid, Name>,         // which status a uid looks up; its own while it is not in here
    statuses: map<Name, Status>    // a status nothing was counted in is not in here
  )

  const Start := State([], map[], map[], map[], map[])

  function NameOf(s: State, u: Uid): Name { if u in s.stats then s.stats[u] else u }

  function At(s: State, n: Name): Status { if n in s.statuses then s.statuses[n] else Status(0, 0, 0, []) }

  function StatusOf(s: State, u: Uid): Status { At(s, NameOf(s, u)) }

  function CountOf(t: Status, k: Kind): int {
    match k
    case Transmitter => t.tx
    case Receiver => t.rx
    case Transceiver => t.trx
  }

  function WithCount(t: Status, k: Kind, d: int): Status {
    match k
    case Transmitter => t.(tx := t.tx + d)
    case Receiver => t.(rx := t.rx + d)
    case Transceiver => t.(trx := t.trx + d)
  }

  function Without(entries: seq<Entry>, id: SessionId): seq<Entry> {
    if entries == [] then []
    else if entries[0].id == id then Without(entries[1..], id)
    else [entries[0]] + Without(entries[1..], id)
  }

  /** A status with a connection more, and with one less. */
  function Joined(t: Status, id: SessionId, k: Kind): Status {
    WithCount(t, k, 1).(roster := t.roster + [Entry(id, k)])
  }

  function Parted(t: Status, id: SessionId, k: Kind): Status {
    WithCount(t, k, -1).(roster := Without(t.roster, id))
  }

  function ManagerFor(s: State, a: User): Manager {
    if a.username in s.managers then s.managers[a.username] else Manager(a.uid, {})
  }

  /** The status in which a bind of this user is counted. */
  function CountedIn(s: State, a: User): Name { NameOf(s, ManagerFor(s, a).owner) }

  predicate CanOpen(s: State, a: User) {
    var t := StatusOf(s, a.uid);
    a.mayBind && (a.maxBindings.Some? ==> t.tx + t.rx + t.trx < a.maxBindings.value)
  }

  function Bound(s: State, id: SessionId, a: User, k: Kind): State {
    var m := ManagerFor(s, a);
    var n := NameOf(s, m.owner);
    State(s.users,
          s.sessions[id := Session(a.username, k)],
          s.managers[a.username := Manager(m.owner, m.binds + {id})],
          s.stats,
          s.statuses[n := Joined(At(s, n), id, k)])
  }

  function Unbound(s: State, id: SessionId): State {
    if id in s.sessions && s.sessions[id].system in s.managers then
      var x := s.sessions[id];
      var m := s.managers[x.system];
      var n, rest := NameOf(s, m.owner), m.binds - {id};
      State(s.users,
            s.sessions - {id},
            if rest == {} then s.managers - {x.system} else s.managers[x.system := Manager(m.owner, rest)],
            s.stats,
            s.statuses[n := Parted(At(s, n), id, x.kind)])
    else s
  }

  // Users come and go

  predicate Same(a: User, b: User) { a.uid == b.uid || a.username == b.username }

  /** The position of the user that adding `a` replaces, or the number of users. */
  function Replaced(users: seq<User>, a: User): (i: nat)
    ensures i <= |users| && (i < |users| ==> Same(a, users[i])) && forall j :: 0 <= j < i ==> !Same(a, users[j])
  {
    if users == [] || Same(a, users[0]) then 0 else 1 + Replaced(users[1..], a)
  }

  /** The first user with the uid or the username goes, and leaves its status to the new one. */
  function Added(s: State, a: User): State {
    var i := Replaced(s.users, a);
    if i == |s.users| then s.(users := s.users + [a])
    else
      s.(users := s.users[..i] + s.users[i + 1..] + [a], stats := s.stats[a.uid := NameOf(s, s.users[i].uid)])
  }

  function WithoutUser(users: seq<User>, u: Uid): seq<User> {
    if users == [] then [] else if users[0].uid == u then users[1..] else [users[0]] + WithoutUser(users[1..], u)
  }

  datatype Event =
    | Bind(id: SessionId, user: User, kind: Kind)
    | Close(id: SessionId)
    | AddUser(user: User)
    | RemoveUser(uid: Uid)

  /** A bind is refused to strangers, on a session already bound and beyond the limit; closing a session that never
      bound changes nothing. Removing a user leaves statuses and connections alone. */
  function Next(s: State, e: Event): State {
    match e
    case Bind(id, a, k) => if a in s.users && id !in s.sessions && CanOpen(s, a) then Bound(s, id, a, k) else s
    case Close(id) => Unbound(s, id)
    case AddUser(a) => Added(s, a)
    case RemoveUser(u) => s.(users := WithoutUser(s.users, u))
  }

  function Run(es: seq<Event>): State {
    if es == [] then Start else Next(Run(es[..|es| - 1]), es[|es| - 1])
  }

  // What the account means

  /** A session is live in the status that its manager's user looks up. */
  predicate IsLive(s: State, id: SessionId, n: Name, k: Kind) {
    && id in s.sessions && s.sessions[id].kind == k
    && s.sessions[id].system in s.managers && NameOf(s, s.managers[s.sessions[id].system].owner) == n
  }

  ghost function Live(s: State, n: Name, k: Kind): set<SessionId> {
    set id | id in s.sessions && IsLive(s, id, n, k)
  }

  predicate IsBoundTo(s: State, id: SessionId, x: SystemId) { id in s.sessions && s.sessions[id].system == x }

  ghost function BoundTo(s: State, x: SystemId): set<SessionId> { set id | id in s.sessions && IsBoundTo(s, id, x) }

  /** The manager of a system id holds the sessions bound to it, and there is one exactly while there are some. */
  ghost predicate ManagerRight(s: State, x: SystemId) {
    (x in s.managers <==> BoundTo(s, x) != {}) && (x in s.managers ==> s.managers[x].binds == BoundTo(s, x))
  }

  ghost predicate ManagersRight(s: State) { forall x :: ManagerRight(s, x) }

  ghost predicate CountsRight(s: State, n: Name) { forall k :: CountOf(At(s, n), k) == |Live(s, n, k)| }

  predicate Lists(r: seq<Entry>, id: SessionId, k: Kind) { Entry(id, k) in r }

  predicate NoRepeats(r: seq<Entry>) { forall i, j :: 0 <= i < j < |r| ==> r[i].id != r[j].id }

  /** The roster lists every session live in the status once, and nothing else. */
  ghost predicate RosterRight(s: State, n: Name) {
    && NoRepeats(At(s, n).roster)
    && forall id, k :: Lists(At(s, n).roster, id, k) <==> id in Live(s, n, k)
  }

  ghost predicate Right(s: State) {
    ManagersRight(s) && forall n :: CountsRight(s, n) && RosterRight(s, n)
  }

  // Binds and closed connections keep the account right

  lemma Managed(s: State, id: SessionId)
    requires ManagersRight(s) && id in s.sessions
    ensures s.sessions[id].system in s.managers
  {
    assert ManagerRight(s, s.sessions[id].system) && id in BoundTo(s, s.sessions[id].system);
  }

  lemma BoundIsLive(s: State, id: SessionId, a: User, k: Kind, i: SessionId, n: Name, l: Kind)
    requires id !in s.sessions && (i in s.sessions ==> s.sessions[i].system in s.managers)
    ensures IsLive(Bound(s, id, a, k), i, n, l) <==>
            IsLive(s, i, n, l) || (i == id && n == CountedIn(s, a) && l == k)
  {
  }

  lemma BoundLive(s: State, id: SessionId, a: User, k: Kind, n: Name, l: Kind)
    requires ManagersRight(s) && id !in s.sessions
    ensures Live(Bound(s, id, a, k), n, l) == Live(s, n, l) + if n == CountedIn(s, a) && l == k then {id} else {}
  {
    var after := Bound(s, id, a, k);
    forall i ensures IsLive(after, i, n, l) <==> IsLive(s, i, n, l) || (i == id && n == CountedIn(s, a) && l == k) {
      if i in s.sessions { Managed(s, i); }
      BoundIsLive(s, id, a, k, i, n, l);
    }
  }

  lemma UnboundLive(s: State, id: SessionId, n: Name, l: Kind)
    requires ManagersRight(s) && id in s.sessions
    ensures s.sessions[id].system in s.managers
    ensures Live(Unbound(s, id), n, l) == Live(s, n, l) - {id}
    ensures id in Live(s, n, l) <==>
            n == NameOf(s, s.managers[s.sessions[id].system].owner) && l == s.sessions[id].kind
  {
    var after := Unbound(s, id);
    Managed(s, id);
    forall i ensures IsLive(after, i, n, l) <==> IsLive(s, i, n, l) && i != id {
      if i in s.sessions && i != id { StillManaged(s, id, i); }
    }
  }

  lemma StillManaged(s: State, id: SessionId, i: SessionId)
    requires ManagersRight(s) && id in s.sessions && i in s.sessions && i != id
    ensures var x := s.sessions[i].system;
            x in s.managers && x in Unbound(s, id).managers && Unbound(s, id).managers[x].owner == s.managers[x].owner
  {
    Managed(s, id);
    Managed(s, i);
    assert ManagerRight(s, s.sessions[i].system) && i in s.managers[s.sessions[i].system].binds - {id};
  }

  lemma BoundAddsOne(s: State, id: SessionId, a: User, k: Kind, x: SystemId)
    requires id !in s.sessions
    ensures BoundTo(Bound(s, id, a, k), x) == BoundTo(s, x) + if x == a.username then {id} else {}
  {
    var after := Bound(s, id, a, k);
    assert forall i :: IsBoundTo(after, i, x) <==> IsBoundTo(s, i, x) || (i == id && x == a.username);
  }

  lemma BoundKeepsManagers(s: State, id: SessionId, a: User, k: Kind)
    requires ManagersRight(s) && id !in s.sessions
    ensures ManagersRight(Bound(s, id, a, k))
  {
    var after := Bound(s, id, a, k);
    forall x ensures ManagerRight(after, x) {
      assert ManagerRight(s, x);
      BoundAddsOne(s, id, a, k, x);
    }
  }

  lemma UnboundKeepsManagers(s: State, id: SessionId)
    requires ManagersRight(s) && id in s.sessions
    ensures ManagersRight(Unbound(s, id))
  {
    Managed(s, id);
    var after := Unbound(s, id);
    forall x ensures ManagerRight(after, x) {
      assert ManagerRight(s, x);
      assert BoundTo(after, x) == BoundTo(s, x) - {id};
    }
  }

  lemma JoinedCount(t: Status, id: SessionId, k: Kind, l: Kind)
    ensures CountOf(Joined(t, id, k), l) == CountOf(t, l) + if l == k then 1 else 0
    ensures CountOf(Parted(t, id, k), l) == CountOf(t, l) - if l == k then 1 else 0
  {
  }

  /** Where a bind is counted, and that it is counted nowhere else. */
  lemma BoundAt(s: State, id: SessionId, a: User, k: Kind, n: Name)
    ensures At(Bound(s, id, a, k), n) == if n == CountedIn(s, a) then Joined(At(s, n), id, k) else At(s, n)
  {
  }

  lemma BoundKeepsCounts(s: State, id: SessionId, a: User, k: Kind, n: Name)
    requires ManagersRight(s) && CountsRight(s, n) && id !in s.sessions
    ensures CountsRight(Bound(s, id, a, k), n)
  {
    var after := Bound(s, id, a, k);
    BoundAt(s, id, a, k, n);
    forall l ensures CountOf(At(after, n), l) == |Live(after, n, l)| {
      BoundLive(s, id, a, k, n, l);
      JoinedCount(At(s, n), id, k, l);
      assert CountOf(At(s, n), l) == |Live(s, n, l)|;
    }
  }

  lemma UnboundKeepsCounts(s: State, id: SessionId, n: Name)
    requires ManagersRight(s) && CountsRight(s, n) && id in s.sessions
    ensures CountsRight(Unbound(s, id), n)
  {
    var after := Unbound(s, id);
    forall l ensures CountOf(At(after, n), l) == |Live(after, n, l)| {
      UnboundLive(s, id, n, l);
      JoinedCount(At(s, n), id, s.sessions[id].kind, l);
      assert CountOf(At(s, n), l) == |Live(s, n, l)|;
    }
  }

  lemma BoundKeepsRoster(s: State, id: SessionId, a: User, k: Kind, n: Name)
    requires ManagersRight(s) && RosterRight(s, n) && id !in s.sessions
    ensures RosterRight(Bound(s, id, a, k), n)
  {
    var r, after := At(s, n).roster, Bound(s, id, a, k);
    BoundAt(s, id, a, k, n);
    forall i | 0 <= i < |r| ensures r[i].id != id {
      assert Lists(r, r[i].id, r[i].kind);
    }
    forall x, l ensures Lists(At(after, n).roster, x, l) <==> x in Live(after, n, l) {
      BoundLive(s, id, a, k, n, l);
      assert Lists(r, x, l) <==> x in Live(s, n, l);
    }
  }

  lemma {:induction false} WithoutDrops(r: seq<Entry>, id: SessionId, x: SessionId, k: Kind)
    ensures Lists(Without(r, id), x, k) <==> Lists(r, x, k) && x != id
  {
    if r != [] {
      WithoutDrops(r[1..], id, x, k);
      assert Lists(r, x, k) <==> r[0] == Entry(x, k) || Lists(r[1..], x, k);
    }
  }

  lemma {:induction false} WithoutKeepsApart(r: seq<Entry>, id: SessionId)
    requires NoRepeats(r)
    ensures NoRepeats(Without(r, id))
  {
    if r != [] {
      WithoutKeepsApart(r[1..], id);
      var rest := Without(r[1..], id);
      forall i | 0 <= i < |rest| ensures rest[i].id != r[0].id {
        WithoutDrops(r[1..], id, rest[i].id, rest[i].kind);
        assert Lists(rest, rest[i].id, rest[i].kind);
      }
    }
  }

  lemma UnboundKeepsRoster(s: State, id: SessionId, n: Name)
    requires ManagersRight(s) && RosterRight(s, n) && id in s.sessions
    ensures RosterRight(Unbound(s, id), n)
  {
    var r, after := At(s, n).roster, Unbound(s, id);
    WithoutKeepsApart(r, id);
    forall x, l ensures Lists(At(after, n).roster, x, l) <==> x in Live(after, n, l) {
      UnboundLive(s, id, n, l);
      WithoutDrops(r, id, x, l);
      assert Lists(r, x, l) <==> x in Live(s, n, l);
    }
  }

  lemma BoundKeepsRight(s: State, id: SessionId, a: User, k: Kind)
    requires Right(s) && id !in s.sessions
    ensures Right(Bound(s, id, a, k))
  {
    BoundKeepsManagers(s, id, a, k);
    forall n ensures CountsRight(Bound(s, id, a, k), n) && RosterRight(Bound(s, id, a, k), n) {
      BoundKeepsCounts(s, id, a, k, n);
      BoundKeepsRoster(s, id, a, k, n);
    }
  }

  lemma UnboundKeepsRight(s: State, id: SessionId)
    requires Right(s) && id in s.sessions
    ensures Right(Unbound(s, id))
  {
    UnboundKeepsManagers(s, id);
    forall n ensures CountsRight(Unbound(s, id), n) && RosterRight(Unbound(s, id), n) {
      UnboundKeepsCounts(s, id, n);
      UnboundKeepsRoster(s, id, n);
    }
  }

  // When adding a user keeps it right

  predicate Owns(s: State, u: Uid, x: SystemId) { x in s.managers && s.managers[x].owner == u }

  /** Adding this user does not make a uid with bound connections look up another status. */
  ghost predicate Harmless(s: State, a: User) {
    NameOf(Added(s, a), a.uid) == NameOf(s, a.uid) || forall x :: !Owns(s, a.uid, x)
  }

  /** The same connections and statuses, looked up alike by everyone who has connections. */
  ghost predicate SameAccount(s: State, after: State) {
    && after.sessions == s.sessions && after.managers == s.managers && after.statuses == s.statuses
    && forall x :: x in s.managers ==> NameOf(after, s.managers[x].owner) == NameOf(s, s.managers[x].owner)
  }

  lemma SameAccountSameRight(s: State, after: State)
    requires SameAccount(s, after) && Right(s)
    ensures Right(after)
  {
    forall x ensures ManagerRight(after, x) {
      assert ManagerRight(s, x) && BoundTo(after, x) == BoundTo(s, x);
    }
    forall n ensures CountsRight(after, n) && RosterRight(after, n) {
      forall k ensures Live(after, n, k) == Live(s, n, k) {
        assert forall id :: IsLive(after, id, n, k) <==> IsLive(s, id, n, k);
      }
      assert CountsRight(s, n) && RosterRight(s, n);
    }
  }

  lemma HarmlessKeepsAccount(s: State, a: User)
    requires Harmless(s, a)
    ensures SameAccount(s, Added(s, a))
  {
    forall x | x in s.managers
      ensures NameOf(Added(s, a), s.managers[x].owner) == NameOf(s, s.managers[x].owner)
    {
      assert Owns(s, s.managers[x].owner, x);
    }
  }

  lemma HarmfulLosesOne(s: State, a: User, x: SystemId)
    requires Right(s) && Owns(s, a.uid, x) && NameOf(Added(s, a), a.uid) != NameOf(s, a.uid)
    ensures !Right(Added(s, a))
  {
    var after, n := Added(s, a), NameOf(s, a.uid);
    assert ManagerRight(s, x);
    var id :| id in BoundTo(s, x);
    var k := s.sessions[id].kind;
    assert IsLive(s, id, n, k) && !IsLive(after, id, n, k);
    assert RosterRight(s, n) && Lists(At(s, n).roster, id, k);
    assert At(after, n) == At(s, n);
    assert Lists(At(after, n).roster, id, k) && id !in Live(after, n, k);
    assert !RosterRight(after, n);
  }

  /** Adding a user keeps the account right exactly when it does not give a uid that has bound connections the status of
      someone else. */
  lemma AddedKeepsRightIff(s: State, a: User)
    requires Right(s)
    ensures Right(Added(s, a)) <==> Harmless(s, a)
  {
    if Harmless(s, a) {
      HarmlessKeepsAccount(s, a);
      SameAccountSameRight(s, Added(s, a));
    } else {
      var x :| Owns(s, a.uid, x);
      HarmfulLosesOne(s, a, x);
    }
  }

  ghost predicate Safe(s: State, e: Event) { e.AddUser? ==> Harmless(s, e.user) }

  lemma NextKeepsRight(s: State, e: Event)
    requires Right(s) && Safe(s, e)
    ensures Right(Next(s, e))
  {
    match e
    case Bind(id, a, k) => if Next(s, e) != s { BoundKeepsRight(s, id, a, k); }
    case Close(id) => if id in s.sessions { UnboundKeepsRight(s, id); }
    case AddUser(a) => AddedKeepsRightIff(s, a);
    case RemoveUser(u) => SameAccountSameRight(s, Next(s, e));
  }

  ghost predicate SafeAt(es: seq<Event>, k: nat)
    requires k < |es|
  {
    Safe(Run(es[..k]), es[k])
  }

  ghost predicate SafeRun(es: seq<Event>) { forall k :: 0 <= k < |es| ==> SafeAt(es, k) }

  lemma SafePrefix(es: seq<Event>)
    requires SafeRun(es) && es != []
    ensures SafeRun(es[..|es| - 1]) && Safe(Run(es[..|es| - 1]), es[|es| - 1])
  {
    var before := es[..|es| - 1];
    assert SafeAt(es, |es| - 1);
    forall k | 0 <= k < |before| ensures SafeAt(before, k) {
      assert SafeAt(es, k) && before[..k] == es[..k];
    }
  }

  /** After any history of binds, closed connections and users that come and go harmlessly the account is right: the
      counters count the live connections of each type, the roster lists each once, and a system id is present exactly
      while it has a binding. */
  lemma {:induction false} AccountIsRight(es: seq<Event>)
    requires SafeRun(es)
    ensures Right(Run(es))
  {
    if es != [] {
      SafePrefix(es);
      AccountIsRight(es[..|es| - 1]);
      NextKeepsRight(Run(es[..|es| - 1]), es[|es| - 1]);
    } else {
      assert Run(es) == Start;
      forall n, k ensures Live(Start, n, k) == {} {}
      forall x ensures BoundTo(Start, x) == {} {}
    }
  }

  // The limit on bindings

  /** A bind of this user is counted where its limit is looked up. */
  predicate Shares(s: State, a: User) { CountedIn(s, a) == NameOf(s, a.uid) }

  lemma BindingsCounted(s: State, x: SystemId)
    requires Right(s) && x in s.managers
    ensures var t := StatusOf(s, s.managers[x].owner);
            |BoundTo(s, x)| <= t.tx + t.rx + t.trx
  {
    var n := NameOf(s, s.managers[x].owner);
    var all := Live(s, n, Transmitter) + Live(s, n, Receiver) + Live(s, n, Transceiver);
    forall id | id in BoundTo(s, x) ensures id in all {
      assert IsLive(s, id, n, s.sessions[id].kind);
    }
    SubsetSize(BoundTo(s, x), all);
    assert CountsRight(s, n);
    assert CountOf(At(s, n), Transmitter) == |Live(s, n, Transmitter)|;
    assert CountOf(At(s, n), Receiver) == |Live(s, n, Receiver)|;
    assert CountOf(At(s, n), Transceiver) == |Live(s, n, Transceiver)|;
  }

  /** The limit holds after every accepted bind that is counted where it is looked up. */
  lemma MaxBindingsHold(s: State, id: SessionId, a: User, k: Kind)
    requires Right(s) && id !in s.sessions && CanOpen(s, a) && a.maxBindings.Some? && Shares(s, a)
    ensures |BoundTo(Bound(s, id, a, k), a.username)| <= a.maxBindings.value
  {
    var after := Bound(s, id, a, k);
    BoundKeepsRight(s, id, a, k);
    BindingsCounted(after, a.username);
    BoundAt(s, id, a, k, CountedIn(s, a));
  }

  /** A user of the router is let bind a new session, in every run, exactly if it may bind and the connections live in
      the status it looks up are fewer than its limit; and if it is not, nothing changes. */
  lemma BindAcceptedIff(es: seq<Event>, id: SessionId, a: User, k: Kind)
    requires SafeRun(es) && a in Run(es).users && id !in Run(es).sessions
    ensures var s := Run(es);
            var n := NameOf(s, a.uid);
            var live := |Live(s, n, Transmitter)| + |Live(s, n, Receiver)| + |Live(s, n, Transceiver)|;
            && (id in Next(s, Bind(id, a, k)).sessions <==>
                a.mayBind && (a.maxBindings.None? || live < a.maxBindings.value))
            && (id !in Next(s, Bind(id, a, k)).sessions ==> Next(s, Bind(id, a, k)) == s)
  {
    var s := Run(es);
    AccountIsRight(es);
    var n := NameOf(s, a.uid);
    assert CountsRight(s, n);
    assert CountOf(At(s, n), Transmitter) == |Live(s, n, Transmitter)|;
    assert CountOf(At(s, n), Receiver) == |Live(s, n, Receiver)|;
    assert CountOf(At(s, n), Transceiver) == |Live(s, n, Transceiver)|;
  }

  ghost predicate FreshSessions(s: State, ids: seq<SessionId>) {
    && (forall i :: 0 <= i < |ids| ==> ids[i] !in s.sessions)
    && (forall i, j :: 0 <= i < j < |ids| ==> ids[i] != ids[j])
  }

  /** One bind after the other. */
  function BindAll(s: State, a: User, k: Kind, ids: seq<SessionId>): State {
    if ids == [] then s else Next(BindAll(s, a, k, ids[..|ids| - 1]), Bind(ids[|ids| - 1], a, k))
  }

  /** Counted elsewhere, every bind of the user is let through, however many there are. */
  lemma {:induction false} NotSharedUnlimited(s: State, a: User, k: Kind, ids: seq<SessionId>)
    requires a in s.users && CanOpen(s, a) && !Shares(s, a) && FreshSessions(s, ids)
    ensures var after := BindAll(s, a, k, ids);
            && after.users == s.users && CanOpen(after, a) && !Shares(after, a)
            && (forall id :: id in after.sessions ==> id in s.sessions || id in ids)
            && |BoundTo(after, a.username)| == |BoundTo(s, a.username)| + |ids|
  {
    if ids != [] {
      var n := |ids| - 1;
      NotSharedUnlimited(s, a, k, ids[..n]);
      var before := BindAll(s, a, k, ids[..n]);
      assert ids[n] !in before.sessions;
      BoundAddsOne(before, ids[n], a, k, a.username);
      BoundAt(before, ids[n], a, k, NameOf(before, a.uid));
    }
  }

  lemma {:induction false} SharedLimited(s: State, a: User, k: Kind, ids: seq<SessionId>)
    requires Right(s) && a.maxBindings.Some? && Shares(s, a) && FreshSessions(s, ids)
    requires |BoundTo(s, a.username)| <= a.maxBindings.value
    ensures var after := BindAll(s, a, k, ids);
            && Right(after) && Shares(after, a) && |BoundTo(after, a.username)| <= a.maxBindings.value
  {
    if ids != [] {
      var n := |ids| - 1;
      SharedLimited(s, a, k, ids[..n]);
      var before := BindAll(s, a, k, ids[..n]);
      if BindAll(s, a, k, ids) != before {
        BoundKeepsRight(before, ids[n], a, k);
        MaxBindingsHold(before, ids[n], a, k);
      }
    }
  }

  /** `n` sessions that are not bound. */
  lemma {:induction false} SomeFresh(s: State, n: nat) returns (ids: seq<SessionId>)
    ensures |ids| == n && FreshSessions(s, ids)
  {
    ids := LongerThan(s.sessions.Keys, n);
  }

  lemma {:induction false} LongerThan(used: set<SessionId>, n: nat) returns (ids: seq<SessionId>)
    ensures |ids| == n && (forall i :: 0 <= i < n ==> ids[i] !in used)
    ensures forall i, j :: 0 <= i < j < n ==> ids[i] != ids[j]
  {
    if n == 0 {
      ids := [];
    } else {
      ids := LongerThan(used, n - 1);
      var id := Unused(used + set i | 0 <= i < n - 1 :: ids[i]);
      ids := ids + [id];
    }
  }

  lemma {:induction false} Unused(used: set<SessionId>) returns (id: SessionId)
    ensures id !in used && forall x :: x in used ==> |x| < |id|
  {
    if used == {} {
      id := "a";
    } else {
      var x :| x in used;
      var y := Unused(used - {x});
      id := if |x| < |y| then y else x + "a";
    }
  }

  lemma {:induction false} RefusedAll(s: State, a: User, k: Kind, ids: seq<SessionId>)
    requires !CanOpen(s, a)
    ensures BindAll(s, a, k, ids) == s
  {
    if ids != [] { RefusedAll(s, a, k, ids[..|ids| - 1]); }
  }

  /** The limit of a user holds, however often it binds from here on, exactly when a bind would be counted in the status
      its limit is looked up in, or the user cannot bind at all. */
  lemma LimitHoldsIff(s: State, a: User, k: Kind)
    requires Right(s) && a in s.users && a.maxBindings.Some? && |BoundTo(s, a.username)| <= a.maxBindings.value
    ensures (forall ids :: FreshSessions(s, ids) ==>
               |BoundTo(BindAll(s, a, k, ids), a.username)| <= a.maxBindings.value)
       <==> Shares(s, a) || !CanOpen(s, a)
  {
    if Shares(s, a) || !CanOpen(s, a) {
      forall ids | FreshSessions(s, ids)
        ensures |BoundTo(BindAll(s, a, k, ids), a.username)| <= a.maxBindings.value
      {
        if Shares(s, a) { SharedLimited(s, a, k, ids); } else { RefusedAll(s, a, k, ids); }
      }
    } else {
      var ids := SomeFresh(s, a.maxBindings.value + 1);
      NotSharedUnlimited(s, a, k, ids);
    }
  }

  /** A user who replaces another of the same username takes over its status, and with it the limit. */
  lemma ReplacementShares(s: State, a: User)
    requires var i := Replaced(s.users, a);
             i < |s.users| && s.users[i].username == a.username && Shares(s, s.users[i])
    ensures Shares(Added(s, a), a)
  {
  }

  /** Binds to system id `x` are made under a limit of at most `most`, and counted where it is looked up. */
  predicate Limited(s: State, e: Event, x: SystemId, most: nat) {
    e.Bind? && e.user.username == x ==>
      e.user.maxBindings.Some? && e.user.maxBindings.value <= most && Shares(s, e.user)
  }

  predicate LimitedAt(es: seq<Event>, k: nat, x: SystemId, most: nat)
    requires k < |es|
  {
    Limited(Run(es[..k]), es[k], x, most)
  }

  lemma NextWithinLimit(s: State, e: Event, x: SystemId, most: nat)
    requires Right(s) && Limited(s, e, x, most) && |BoundTo(s, x)| <= most
    ensures |BoundTo(Next(s, e), x)| <= most
  {
    if Next(s, e).sessions == s.sessions {
      assert BoundTo(Next(s, e), x) == BoundTo(s, x);
    } else if e.Bind? {
      if e.user.username == x {
        MaxBindingsHold(s, e.id, e.user, e.kind);
      } else {
        BoundAddsOne(s, e.id, e.user, e.kind, x);
      }
    } else {
      assert forall i :: IsBoundTo(Next(s, e), i, x) ==> IsBoundTo(s, i, x);
      SubsetSize(BoundTo(Next(s, e), x), BoundTo(s, x));
    }
  }

  /** A limit that is there from the start and is never raised is never exceeded. */
  lemma {:induction false} MaxBindingsNeverExceeded(es: seq<Event>, x: SystemId, most: nat)
    requires SafeRun(es) && forall k :: 0 <= k < |es| ==> LimitedAt(es, k, x, most)
    ensures |BoundTo(Run(es), x)| <= most
  {
    if es == [] {
      assert BoundTo(Run(es), x) == {};
    } else {
      var n := |es| - 1;
      var before := es[..n];
      SafePrefix(es);
      forall k | 0 <= k < |before| ensures LimitedAt(before, k, x, most) {
        assert LimitedAt(es, k, x, most) && before[..k] == es[..k];
      }
      MaxBindingsNeverExceeded(before, x, most);
      AccountIsRight(before);
      assert LimitedAt(es, n, x, most);
      NextWithinLimit(Run(before), es[n], x, most);
    }
  }

  lemma RunStep(es: seq<Event>, e: Event)
    ensures Run(es + [e]) == Next(Run(es), e)
  {
    assert (es + [e])[..|es|] == es;
  }

  lemma RunTwo(e: Event, f: Event)
    ensures Run([e, f]) == Next(Next(Start, e), f)
  {
    assert [e, f] == [] + [e] + [f];
    RunStep([], e);
    RunStep([] + [e], f);
  }

  /** The state in which `a` alone is bound, by one transceiver. */
  function Alone(a: User, id: SessionId): State {
    State([a], map[id := Session(a.username, Transceiver)], map[a.username := Manager(a.uid, {id})], map[],
          map[a.uid := Status(0, 0, 1, [Entry(id, Transceiver)])])
  }

  lemma BoundFirst(users: seq<User>, a: User, id: SessionId)
    requires a in users && a.mayBind && (a.maxBindings.Some? ==> a.maxBindings.value > 0)
    ensures Next(State(users, map[], map[], map[], map[]), Bind(id, a, Transceiver)) == Alone(a, id).(users := users)
  {
    var s := State(users, map[], map[], map[], map[]);
    var none: set<SessionId> := {};
    assert none + {id} == {id};
    assert Bound(s, id, a, Transceiver).sessions == Alone(a, id).sessions;
    assert Bound(s, id, a, Transceiver).managers == Alone(a, id).managers;
    assert Joined(Status(0, 0, 0, []), id, Transceiver) == Status(0, 0, 1, [Entry(id, Transceiver)]);
    assert Bound(s, id, a, Transceiver).statuses == map[a.uid := Status(0, 0, 1, [Entry(id, Transceiver)])];
  }

  lemma FirstBind(a: User, id: SessionId)
    requires a.mayBind && (a.maxBindings.Some? ==> a.maxBindings.value > 0)
    ensures Run([AddUser(a), Bind(id, a, Transceiver)]) == Alone(a, id)
  {
    RunTwo(AddUser(a), Bind(id, a, Transceiver));
    var s := Next(Start, AddUser(a));
    assert s == State([a], map[], map[], map[], map[]);
    BoundFirst([a], a, id);
  }

  lemma RecreatedUserState(a: User, b: User, id: SessionId)
    requires a.mayBind && a.maxBindings == Some(1) && a.uid != b.uid
    ensures Run([AddUser(a), Bind(id, a, Transceiver)] + [RemoveUser(a.uid)] + [AddUser(b)]) ==
            Alone(a, id).(users := [b])
  {
    var es := [AddUser(a), Bind(id, a, Transceiver)];
    FirstBind(a, id);
    RunStep(es, RemoveUser(a.uid));
    RunStep(es + [RemoveUser(a.uid)], AddUser(b));
    assert Run(es + [RemoveUser(a.uid)]) == Alone(a, id).(users := []);
  }

  /** A user with a limit of one is removed while bound, and added again under another uid: both are bound. Had it been
      replaced instead of removed, `ReplacementShares` says that the limit would have held. */
  lemma RecreatedUserExceeds(x: SystemId, u: Uid, v: Uid, id: SessionId, other: SessionId)
    requires u != v && id != other
    ensures var a, b := User(u, x, true, Some(1)), User(v, x, true, Some(1));
            var es := [AddUser(a), Bind(id, a, Transceiver)] + [RemoveUser(u)] + [AddUser(b)];
            |BoundTo(Run(es + [Bind(other, b, Transceiver)]), x)| == 2
  {
    var a, b := User(u, x, true, Some(1)), User(v, x, true, Some(1));
    var es := [AddUser(a), Bind(id, a, Transceiver)] + [RemoveUser(u)] + [AddUser(b)];
    RecreatedUserState(a, b, id);
    RunStep(es, Bind(other, b, Transceiver));
    var s := Alone(a, id).(users := [b]);
    assert CanOpen(s, b) && BoundTo(s, x) == {id};
    BoundAddsOne(s, other, b, Transceiver, x);
  }

  lemma TakenOverState(a: User, c: User, id: SessionId)
    requires a.mayBind && a.maxBindings.None? && c.uid != a.uid && c.username != a.username
    ensures Run([AddUser(c), AddUser(a)] + [Bind(id, a, Transceiver)]) == Alone(a, id).(users := [c, a])
  {
    RunTwo(AddUser(c), AddUser(a));
    RunStep([AddUser(c), AddUser(a)], Bind(id, a, Transceiver));
    assert Run([AddUser(c), AddUser(a)]) == State([c, a], map[], map[], map[], map[]);
    BoundFirst([c, a], a, id);
  }

  lemma TakenOverStatus(a: User, c: User, d: User, id: SessionId)
    requires c.uid != a.uid && d.uid == a.uid && d.username == c.username
    ensures StatusOf(Next(Next(Alone(a, id).(users := [c, a]), AddUser(d)), Close(id)), c.uid).trx == -1
  {
    var s := Alone(a, id).(users := [c, a]);
    assert Replaced(s.users, d) == 0;
    var t := Next(s, AddUser(d));
    assert t.stats == map[a.uid := c.uid] && t.managers[a.username].owner == a.uid;
    assert At(t, c.uid) == Status(0, 0, 0, []);
  }

  /** A user added under the uid of one who is bound and the username of a third takes the third's status: when the
      bound connection closes, the third is counted down to minus one. */
  lemma TakenOverStatusGoesNegative(a: User, c: User, id: SessionId)
    requires a.mayBind && a.maxBindings.None? && c.uid != a.uid && c.username != a.username
    ensures var d := User(a.uid, c.username, true, None);
            var es := [AddUser(c), AddUser(a)] + [Bind(id, a, Transceiver)];
            StatusOf(Run(es + [AddUser(d)] + [Close(id)]), c.uid).trx == -1
  {
    var d := User(a.uid, c.username, true, None);
    var es := [AddUser(c), AddUser(a)] + [Bind(id, a, Transceiver)];
    TakenOverState(a, c, id);
    RunStep(es, AddUser(d));
    RunStep(es + [AddUser(d)], Close(id));
    TakenOverStatus(a, c, d, id);
  }

  // The code. Statuses are objects the users share; here they are found by name.

  class SmppServerFactory {
    var users: seq<User>
    var sessions: map<SessionId, Session>
    var boundConnections: map<SystemId, Manager>
    var stats: map<Uid, Name>
    var statuses: map<Name, Status>

    constructor ()
      ensures View() == Start
    {
      users, sessions, boundConnections, stats, statuses := [], map[], map[], map[], map[];
    }

    ghost function View(): State reads this { State(users, sessions, boundConnections, stats, statuses) }

    /** The status the uid looks up, and its name; one is made on first use. */
    method GetCnxStatus(u: Uid) returns (n: Name, t: Status)
      modifies this`statuses
      ensures n == NameOf(old(View()), u) && t == StatusOf(old(View()), u)
      ensures statuses == old(statuses)[n := t]
    {
      n := if u in stats then stats[u] else u;
      if n !in statuses { statuses := statuses[n := Status(0, 0, 0, [])]; }
      t := statuses[n];
    }

    /** `perspective_user_add`, for a user whose group exists. */
    method UserAdd(a: User)
      modifies this`users, this`stats
      ensures View() == Next(old(View()), AddUser(a))
    {
      for i := 0 to |users|
        invariant users == old(users) && stats == old(stats)
        invariant forall j :: 0 <= j < i ==> !Same(a, users[j])
      {
        if Same(a, users[i]) {
          var replaced := users[i];
          users := users[..i] + users[i + 1..];
          stats := stats[a.uid := if replaced.uid in stats then stats[replaced.uid] else replaced.uid];
          break;
        }
      }
      users := users + [a];
    }

    /** `perspective_user_remove`. */
    method UserRemove(u: Uid) returns (found: bool)
      modifies this`users
      ensures View() == Next(old(View()), RemoveUser(u))
      ensures found <==> exists i :: 0 <= i < |old(users)| && old(users)[i].uid == u
    {
      for i := 0 to |users|
        invariant users == old(users)
        invariant forall j :: 0 <= j < i ==> users[j].uid != u
      {
        if users[i].uid == u {
          WithoutUserAt(users, u, i);
          users := users[..i] + users[i + 1..];
          return true;
        }
      }
      WithoutNobody(users, u);
      found := false;
    }

    method CanOpenNewConnection(a: User) returns (ok: bool)
      modifies this`statuses
      ensures ok == CanOpen(old(View()), a)
      ensures forall n :: At(View(), n) == At(old(View()), n)
    {
      if !a.mayBind { return false; }
      if a.maxBindings.Some? {
        var _, t := GetCnxStatus(a.uid);
        var bindCount := t.tx;
        bindCount := bindCount + t.rx;
        bindCount := bindCount + t.trx;
        if bindCount >= a.maxBindings.value { return false; }
      }
      ok := true;
    }

    method AddBoundConnection(id: SessionId, a: User, k: Kind)
      modifies this
      ensures View() == Bound(old(View()), id, a, k)
    {
      ghost var s := View();
      sessions := sessions[id := Session(a.username, k)];
      if a.username !in boundConnections {
        boundConnections := boundConnections[a.username := Manager(a.uid, {})];
      }
      var m := boundConnections[a.username];
      boundConnections := boundConnections[a.username := Manager(m.owner, m.binds + {id})];
      assert m == ManagerFor(s, a);
      assert boundConnections == s.managers[a.username := Manager(m.owner, m.binds + {id})];
      CountBinding(m.owner, id, k);
    }

    method CountBinding(owner: Uid, id: SessionId, k: Kind)
      modifies this`statuses
      ensures var n := NameOf(old(View()), owner);
              statuses == old(statuses)[n := Joined(At(old(View()), n), id, k)]
    {
      var n, t := GetCnxStatus(owner);
      statuses := statuses[n := Joined(t, id, k)];
    }

    /** `doBindRequest` of an authenticated user, from where it looks at the session state. */
    method DoBindRequest(id: SessionId, a: User, k: Kind) returns (accepted: bool)
      requires a in users
      modifies this
      ensures accepted <==> id !in old(sessions) && CanOpen(old(View()), a)
      ensures SameButUnused(View(), Next(old(View()), Bind(id, a, k)))
    {
      if id in sessions { return false; }
      ghost var s := View();
      accepted := CanOpenNewConnection(a);
      if accepted {
        ghost var t := View();
        AddBoundConnection(id, a, k);
        BoundAlike(s, t, id, a, k);
      }
    }

    /** `removeConnection`; a session that never bound has no system id. */
    method RemoveConnection(id: SessionId)
      requires id in sessions ==> sessions[id].system in boundConnections
      modifies this
      ensures View() == Next(old(View()), Close(id))
    {
      if id !in sessions { return; }
      ghost var s := View();
      var x := sessions[id];
      var m := boundConnections[x.system];
      m := Manager(m.owner, m.binds - {id});
      boundConnections := boundConnections[x.system := m];
      var n, t := GetCnxStatus(m.owner);
      statuses := statuses[n := Parted(t, id, x.kind)];
      assert statuses == s.statuses[n := Parted(At(s, n), id, x.kind)];
      if m.binds == {} {
        boundConnections := boundConnections - {x.system};
        assert boundConnections == s.managers - {x.system};
      }
      sessions := sessions - {id};
    }
  }

  /** Equal up to statuses of zeroes, which looking one up leaves behind. */
  ghost predicate SameButUnused(s: State, t: State) {
    && s.users == t.users && s.sessions == t.sessions && s.managers == t.managers && s.stats == t.stats
    && forall n :: At(s, n) == At(t, n)
  }

  lemma BoundAlike(s: State, t: State, id: SessionId, a: User, k: Kind)
    requires SameButUnused(t, s)
    ensures SameButUnused(Bound(t, id, a, k), Bound(s, id, a, k))
  {
    forall n ensures At(Bound(t, id, a, k), n) == At(Bound(s, id, a, k), n) {
      BoundAt(s, id, a, k, n);
      BoundAt(t, id, a, k, n);
    }
  }

  lemma {:induction false} WithoutUserAt(users: seq<User>, u: Uid, i: nat)
    requires i < |users| && users[i].uid == u && forall j :: 0 <= j < i ==> users[j].uid != u
    ensures WithoutUser(users, u) == users[..i] + users[i + 1..]
  {
    if i > 0 {
      WithoutUserAt(users[1..], u, i - 1);
      assert users[..i] == [users[0]] + users[1..][..i - 1];
      assert users[i + 1..] == users[1..][i..];
    }
  }

  lemma {:induction false} WithoutNobody(users: seq<User>, u: Uid)
    requires forall j :: 0 <= j < |users| ==> users[j].uid != u
    ensures WithoutUser(users, u) == users
  {
    if users != [] { WithoutNobody(users[1..], u); }
  }
}
