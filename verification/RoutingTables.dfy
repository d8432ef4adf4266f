/** The MO and MT routing tables: routes kept by descending order, the first whose filters match is taken. Filters are
    any predicates on the routable `R`. */
module RoutingTables {
  import opened Basics

  datatype ConnectorType = Http | Smpps | Smppc

  datatype Connector = Connector(kind: ConnectorType, cid: string)

  datatype RouteType = Default | MO | MT

  /** A route; `cursor` is the position of a failover route in its connectors. */
  class Route<R> {
    const kind: RouteType
    const failover: bool
    const filters: seq<R -> bool>
    const connectors: seq<Connector>
    var cursor: int

    constructor (kind: RouteType, failover: bool, filters: seq<R -> bool>, connectors: seq<Connector>)
      requires |connectors| > 0
      ensures this.kind == kind && this.failover == failover && this.filters == filters
      ensures this.connectors == connectors && cursor == -1
    {
      this.kind, this.failover, this.filters, this.connectors := kind, failover, filters, connectors;
      cursor := -1;
    }

    /** A default route matches whatever it is offered, without looking at filters. */
    predicate Matches(r: R) { kind.Default? || forall i :: 0 <= i < |filters| ==> filters[i](r) }

    method MatchFilters(r: R) returns (matched: bool)
      modifies this`cursor
      ensures matched == Matches(r)
      ensures matched <==> kind == Default || forall i :: 0 <= i < |filters| ==> filters[i](r)
      ensures cursor == if failover then -1 else old(cursor)
    {
      if failover { cursor := -1; }
      if kind.Default? { return true; }
      for i := 0 to |filters|
        invariant forall j :: 0 <= j < i ==> filters[j](r)
      {
        if !filters[i](r) { return false; }
      }
      matched := true;
    }

    method GetConnector() returns (c: Option<Connector>)
      requires |connectors| > 0 && (failover ==> cursor >= -1)
      modifies this`cursor
      ensures failover ==> cursor == old(cursor) + 1
      ensures failover ==> c == if cursor < |connectors| then Some(connectors[cursor]) else None
      ensures !failover ==> cursor == old(cursor) && c == Some(connectors[0])
    {
      if failover {
        cursor := cursor + 1;
        return if cursor < |connectors| then Some(connectors[cursor]) else None;
      }
      c := Some(connectors[0]);
    }
  }

  /** The position of the first connector that is bound, or the number of connectors. */
  function FirstBound(cs: seq<Connector>, bound: Connector -> bool): (n: nat)
    ensures n <= |cs| && (n < |cs| ==> bound(cs[n]))
    ensures forall i :: 0 <= i < n ==> !bound(cs[i])
  {
    if cs == [] || bound(cs[0]) then 0 else 1 + FirstBound(cs[1..], bound)
  }

  /** The choice of a connector for a submitted message, after the route was looked up: a failover route yields its
      first bound connector, and none exactly when none is bound. */
  method ChooseConnector<R>(route: Route<R>, bound: Connector -> bool) returns (c: Option<Connector>)
    requires |route.connectors| > 0 && (route.failover ==> route.cursor == -1)
    modifies route`cursor
    ensures !route.failover ==> c == Some(route.connectors[0])
    ensures route.failover ==>
              var n := FirstBound(route.connectors, bound);
              c == if n < |route.connectors| then Some(route.connectors[n]) else None
  {
    c := route.GetConnector();
    if route.failover {
      assert route.connectors[0..] == route.connectors;
      while c.Some? && !bound(c.value)
        invariant 0 <= route.cursor <= |route.connectors|
        invariant c == if route.cursor < |route.connectors| then Some(route.connectors[route.cursor]) else None
        invariant FirstBound(route.connectors, bound) ==
                  route.cursor + FirstBound(route.connectors[route.cursor..], bound)
        decreases |route.connectors| - route.cursor
      {
        assert route.connectors[route.cursor..][1..] == route.connectors[route.cursor + 1..];
        c := route.GetConnector();
      }
    }
  }

  // The table

  predicate Descending<T>(t: seq<(int, T)>) { forall i, j :: 0 <= i < j < |t| ==> t[i].0 > t[j].0 }

  predicate DistinctOrders<T>(t: seq<(int, T)>) { forall i, j :: 0 <= i < j < |t| ==> t[i].0 != t[j].0 }

  function AsMap<T>(t: seq<(int, T)>): map<int, T> { if t == [] then map[] else AsMap(t[1..])[t[0].0 := t[0].1] }

  function Place<T>(t: seq<(int, T)>, e: (int, T)): seq<(int, T)> {
    if t == [] || e.0 > t[0].0 then [e] + t else [t[0]] + Place(t[1..], e)
  }

  /** The library's `sorted`, with the order as key, in reverse. */
  function Sorted<T>(t: seq<(int, T)>): seq<(int, T)> {
    if t == [] then [] else Place(Sorted(t[1..]), t[0])
  }

  lemma {:induction false} PlaceMaps<T>(t: seq<(int, T)>, e: (int, T))
    requires e.0 !in AsMap(t)
    ensures AsMap(Place(t, e)) == AsMap(t)[e.0 := e.1]
  {
    if t == [] || e.0 > t[0].0 {
      assert ([e] + t)[1..] == t;
    } else {
      PlaceMaps(t[1..], e);
      assert ([t[0]] + Place(t[1..], e))[1..] == Place(t[1..], e);
    }
  }

  lemma DescendingCons<T>(x: (int, T), t: seq<(int, T)>)
    requires Descending(t) && (t != [] ==> x.0 > t[0].0)
    ensures Descending([x] + t)
  {
  }

  lemma {:induction false} PlaceDescends<T>(t: seq<(int, T)>, e: (int, T))
    requires Descending(t) && e.0 !in AsMap(t)
    ensures Descending(Place(t, e))
  {
    if t == [] || e.0 > t[0].0 {
      DescendingCons(e, t);
    } else {
      PlaceDescends(t[1..], e);
      PlaceHead(t[1..], e);
      DescendingCons(t[0], Place(t[1..], e));
    }
  }

  lemma PlaceKeeps<T>(t: seq<(int, T)>, e: (int, T))
    requires Descending(t) && e.0 !in AsMap(t)
    ensures Descending(Place(t, e)) && AsMap(Place(t, e)) == AsMap(t)[e.0 := e.1]
  {
    PlaceDescends(t, e);
    PlaceMaps(t, e);
  }

  /** The head of a table in which an entry was placed is that entry or the head there was. */
  lemma PlaceHead<T>(t: seq<(int, T)>, e: (int, T))
    ensures Place(t, e) != [] && (Place(t, e)[0] == e || (t != [] && Place(t, e)[0] == t[0]))
  {
  }

  lemma {:induction false} AsMapAt<T>(t: seq<(int, T)>, i: nat)
    requires i < |t| && DistinctOrders(t)
    ensures t[i].0 in AsMap(t) && AsMap(t)[t[i].0] == t[i].1
  {
    if i > 0 { AsMapAt(t[1..], i - 1); }
  }

  /** Where an order stands in the table. */
  lemma {:induction false} Position<T>(t: seq<(int, T)>, order: int) returns (i: nat)
    requires order in AsMap(t)
    ensures i < |t| && t[i].0 == order && AsMap(t)[order] == t[i].1
  {
    if t[0].0 == order {
      i := 0;
    } else {
      i := Position(t[1..], order);
      i := i + 1;
    }
  }

  lemma FirstIsNew<T>(t: seq<(int, T)>)
    requires t != [] && DistinctOrders(t)
    ensures t[0].0 !in AsMap(t[1..])
  {
    if t[0].0 in AsMap(t[1..]) {
      var i := Position(t[1..], t[0].0);
    }
  }

  /** Sorting leaves the same routes under the same orders, highest order first. */
  lemma {:induction false} SortedKeeps<T>(t: seq<(int, T)>)
    requires DistinctOrders(t)
    ensures Descending(Sorted(t)) && AsMap(Sorted(t)) == AsMap(t)
  {
    if t != [] {
      SortedKeeps(t[1..]);
      FirstIsNew(t);
      PlaceKeeps(Sorted(t[1..]), t[0]);
    }
  }

  lemma {:induction false} RemovedAt<T>(t: seq<(int, T)>, i: nat)
    requires i < |t| && DistinctOrders(t)
    ensures AsMap(t[..i] + t[i + 1..]) == AsMap(t) - {t[i].0}
  {
    if i == 0 {
      FirstIsNew(t);
      assert t[..0] + t[1..] == t[1..];
    } else {
      RemovedAt(t[1..], i - 1);
      var cut := t[..i] + t[i + 1..];
      assert cut[0] == t[0] && cut[1..] == t[1..][..i - 1] + t[1..][i..];
    }
  }

  lemma Cut<T>(t: seq<(int, T)>, i: nat)
    requires i < |t| && Descending(t)
    ensures var cut := t[..i] + t[i + 1..];
            Descending(cut) && forall k :: 0 <= k < |cut| ==> cut[k] == t[if k < i then k else k + 1]
  {
  }

  lemma {:induction false} AppendedMap<T>(t: seq<(int, T)>, e: (int, T))
    requires e.0 !in AsMap(t)
    ensures AsMap(t + [e]) == AsMap(t)[e.0 := e.1]
  {
    if t != [] {
      AppendedMap(t[1..], e);
      assert (t + [e])[1..] == t[1..] + [e];
    }
  }

  datatype Refusal = Accepted | BadConnector | NegativeOrder | WrongType | NotDefault

  class RoutingTable<R> {
    const kind: RouteType
    var table: seq<(int, Route<R>)>

    ghost predicate Valid() reads this {
      && Descending(table)
      && forall i :: 0 <= i < |table| ==> Admissible(table[i].1, table[i].0)
    }

    /** The routes by order. */
    ghost function Routes(): map<int, Route<R>> reads this { AsMap(table) }

    predicate Fits(c: Connector) { if kind.MO? then c.kind.Http? || c.kind.Smpps? else c.kind.Smppc? }

    ghost predicate Admissible(route: Route<R>, order: int) {
      && |route.connectors| > 0
      && (forall i :: 0 <= i < |route.connectors| ==> Fits(route.connectors[i]))
      && order >= 0
      && route.kind == if order == 0 then Default else kind
    }

    constructor (kind: RouteType)
      requires kind != Default
      ensures this.kind == kind && Valid() && Routes() == map[]
    {
      this.kind, table := kind, [];
    }

    /** A route is added exactly when it is admissible under its order, and replaces the one there was; a refused
        route changes nothing. */
    method Add(route: Route<R>, order: int) returns (r: Refusal)
      requires Valid() && |route.connectors| > 0
      modifies this`table
      ensures Valid()
      ensures r.Accepted? <==> Admissible(route, order)
      // the reason of a refusal: a connector of the wrong kind for the table, then the order, then the kind of route
      ensures r.BadConnector? <==> exists i :: 0 <= i < |route.connectors| &&
                                     route.connectors[i].kind !in if kind == MO then {Http, Smpps} else {Smppc}
      ensures r.NegativeOrder? <==> !r.BadConnector? && order < 0
      ensures r.WrongType? <==> !r.BadConnector? && order > 0 && route.kind != kind
      ensures r.NotDefault? <==> !r.BadConnector? && order == 0 && route.kind != Default
      ensures Routes() == if r.Accepted? then old(Routes())[order := route] else old(Routes())
      ensures !r.Accepted? ==> table == old(table)
    {
      for i := 0 to |route.connectors|
        invariant forall j :: 0 <= j < i ==> Fits(route.connectors[j])
      {
        if !Fits(route.connectors[i]) { return BadConnector; }
      }
      if order < 0 { return NegativeOrder; }
      if order != 0 && route.kind != kind { return WrongType; }
      if order == 0 && !route.kind.Default? { return NotDefault; }
      var _ := Remove(order);
      AppendedMap(table, (order, route));
      var t := table + [(order, route)];
      forall i | 0 <= i < |table| ensures table[i].0 != order { AsMapAt(table, i); }
      SortedKeeps(t);
      table := Sorted(t);
      forall i | 0 <= i < |table| ensures Admissible(table[i].1, table[i].0) {
        AsMapAt(table, i);
        var j := Position(t, table[i].0);
        assert AsMap(t)[table[i].0] == t[j].1;
      }
      r := Accepted;
    }

    method Remove(order: int) returns (found: bool)
      requires Valid()
      modifies this`table
      ensures Valid()
      ensures found <==> order in old(Routes())
      ensures Routes() == old(Routes()) - {order}
    {
      for i := 0 to |table|
        invariant table == old(table)
        invariant forall j :: 0 <= j < i ==> table[j].0 != order
      {
        if table[i].0 == order {
          AsMapAt(table, i);
          RemovedAt(table, i);
          Cut(table, i);
          table := table[..i] + table[i + 1..];
          return true;
        }
      }
      if order in Routes() {
        var i := Position(table, order);
      }
      found := false;
    }

    method Flush()
      modifies this`table
      ensures Valid() && Routes() == map[]
    {
      table := [];
    }

    /** The route taken is the matching one of greatest order; there is none only when nothing matches, which cannot
        be while there is a default route. Failover routes that were looked at start over at their first
        connector. */
    method GetRouteFor(r: R) returns (route: Route?<R>, ghost order: int)
      requires Valid()
      modifies (set i | 0 <= i < |table| :: table[i].1)`cursor
      ensures route == null <==> forall o :: o in Routes() ==> !Routes()[o].Matches(r)
      ensures route != null ==> order in Routes() && Routes()[order] == route && route.Matches(r)
      ensures route != null ==> forall o :: o in Routes() && o > order ==> !Routes()[o].Matches(r)
      ensures 0 in Routes() ==> route != null
      ensures route != null && route.failover ==> route.cursor == -1
    {
      order := 0;
      for i := 0 to |table|
        invariant forall j :: 0 <= j < i ==> !table[j].1.Matches(r)
      {
        var matched := table[i].1.MatchFilters(r);
        if matched {
          route, order := table[i].1, table[i].0;
          AsMapAt(table, i);
          assert Routes()[order].Matches(r);
          forall o | o in Routes() && o > order ensures !Routes()[o].Matches(r) {
            var j := Position(table, o);
          }
          return;
        }
      }
      route := null;
      if 0 in Routes() { var j := Position(table, 0); }
      forall o | o in Routes() ensures !Routes()[o].Matches(r) {
        var j := Position(table, o);
      }
    }
  }

  datatype Routing = NoRoute | NoBoundConnector | RoutedTo(connector: Connector)

  /** What the SMPP server makes of a submitted message, whatever was routed before it: the matching route of greatest
      order decides, and if that is a failover route, its first bound connector. */
  method RouteSubmitSm<R>(t: RoutingTable<R>, r: R, bound: Connector -> bool)
      returns (routing: Routing, ghost order: int)
    requires t.Valid()
    modifies (set i | 0 <= i < |t.table| :: t.table[i].1)`cursor
    ensures routing.NoRoute? <==> forall o :: o in t.Routes() ==> !t.Routes()[o].Matches(r)
    ensures !routing.NoRoute? ==>
              && order in t.Routes() && t.Routes()[order].Matches(r)
              && (forall o :: o in t.Routes() && o > order ==> !t.Routes()[o].Matches(r))
              && var cs := t.Routes()[order].connectors;
                 if !t.Routes()[order].failover then |cs| > 0 && routing == RoutedTo(cs[0])
                 else
                   var n := FirstBound(cs, bound);
                   routing == if n < |cs| then RoutedTo(cs[n]) else NoBoundConnector
  {
    var route;
    route, order := t.GetRouteFor(r);
    if route == null { return NoRoute, 0; }
    var i := Position(t.table, order);
    ghost var routes := t.Routes();
    var c := ChooseConnector(route, bound);
    assert t.Routes() == routes && routes[order] == route;
    routing := if c.Some? then RoutedTo(c.value) else NoBoundConnector;
  }
}
