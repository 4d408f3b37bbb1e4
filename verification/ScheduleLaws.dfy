/** The delivery schedule read off the configuration, without the functions that build it. */
module ScheduleLaws {
  import opened Wrappers
  import opened Envelopes
  import opened Smash

  /** A destination of a route, by their positions in the configuration. */
  datatype Place = Place(route: nat, destination: nat)

  ghost predicate InRange(routes: seq<Route>, p: Place) {
    p.route < |routes| && p.destination < |routes[p.route].destinations|
  }

  ghost predicate Applies(routes: seq<Route>, topic: string, eventType: string, p: Place) {
    InRange(routes, p) && RouteMatches(routes[p.route], topic, eventType)
  }

  /** Routes in configuration order; within a route required before optional, and each in configuration order. */
  ghost predicate Precedes(routes: seq<Route>, p: Place, q: Place) {
    && InRange(routes, p) && InRange(routes, q)
    && var first := routes[p.route].destinations[p.destination].required;
    && var second := routes[q.route].destinations[q.destination].required;
    && p.route <= q.route
    && (p.route == q.route ==> (first && !second) || (first == second && p.destination < q.destination))
  }

  ghost predicate Stands(routes: seq<Route>, p: Place, slot: Slot) {
    && InRange(routes, p)
    && var d := routes[p.route].destinations[p.destination];
    && slot.routeId == routes[p.route].id && slot.adapterId == d.adapterId && slot.required == d.required
  }

  ghost predicate AllStand(routes: seq<Route>, places: seq<Place>, slots: seq<Slot>) {
    |places| == |slots| && forall k :: 0 <= k < |places| ==> Stands(routes, places[k], slots[k])
  }

  ghost predicate Ascending(routes: seq<Route>, places: seq<Place>) {
    forall k, l :: 0 <= k < l < |places| ==> Precedes(routes, places[k], places[l])
  }

  /** The slots stand for exactly the applicable places, each once, in order. */
  ghost predicate Lists(
    routes: seq<Route>, topic: string, eventType: string, places: seq<Place>, slots: seq<Slot>)
  {
    && AllStand(routes, places, slots)
    && Ascending(routes, places)
    && forall p :: p in places <==> Applies(routes, topic, eventType, p)
  }

  // ----- The places in order -----

  /** The indices from `low` on of the destinations with one flag. */
  function Indices(ds: seq<Destination>, required: bool, low: nat): (indices: seq<nat>)
    requires low <= |ds|
    ensures forall j :: j in indices <==> low <= j < |ds| && ds[j].required == required
    decreases |ds| - low
  {
    if low == |ds| then []
    else (if ds[low].required == required then [low] else []) + Indices(ds, required, low + 1)
  }

  ghost predicate Increasing(s: seq<nat>) { forall k, l :: 0 <= k < l < |s| ==> s[k] < s[l] }

  lemma {:induction false} IncreasingCons(first: nat, rest: seq<nat>)
    requires Increasing(rest) && forall j :: j in rest ==> first < j
    ensures Increasing([first] + rest)
  {
    var all := [first] + rest;
    forall k, l | 0 <= k < l < |all|
      ensures all[k] < all[l]
    {
      assert all[l] == rest[l - 1] && rest[l - 1] in rest;
      if k > 0 {
        assert all[k] == rest[k - 1];
      }
    }
  }

  lemma {:induction false} IndicesAscend(ds: seq<Destination>, required: bool, low: nat)
    requires low <= |ds|
    ensures Increasing(Indices(ds, required, low))
    decreases |ds| - low
  {
    if low < |ds| {
      IndicesAscend(ds, required, low + 1);
      var rest := Indices(ds, required, low + 1);
      if ds[low].required == required {
        IncreasingCons(low, rest);
      } else {
        assert [] + rest == rest;
      }
    }
  }

  lemma {:induction false} IndicesPick(ds: seq<Destination>, required: bool, low: nat)
    requires low <= |ds|
    ensures var r, picked := Indices(ds, required, low), WithRequired(ds[low..], required);
            |r| == |picked| && forall k :: 0 <= k < |r| ==> r[k] < |ds| && ds[r[k]] == picked[k]
    decreases |ds| - low
  {
    if low < |ds| {
      IndicesPick(ds, required, low + 1);
      assert ds[low..][1..] == ds[low + 1..];
    }
  }

  function PlacesOf(route: nat, indices: seq<nat>): (places: seq<Place>)
    ensures |places| == |indices| && forall k :: 0 <= k < |places| ==> places[k] == Place(route, indices[k])
    ensures forall p :: p in places <==> p.route == route && p.destination in indices
  {
    var places := seq(|indices|, k requires 0 <= k < |indices| => Place(route, indices[k]));
    assert forall k :: 0 <= k < |indices| ==> places[k] == Place(route, indices[k]);
    places
  }

  function FlagPlaces(routes: seq<Route>, i: nat, required: bool): seq<Place>
    requires i < |routes|
  {
    PlacesOf(i, Indices(routes[i].destinations, required, 0))
  }

  function RoutePlaces(routes: seq<Route>, i: nat): seq<Place>
    requires i < |routes|
  {
    FlagPlaces(routes, i, true) + FlagPlaces(routes, i, false)
  }

  ghost function PlacesFrom(routes: seq<Route>, topic: string, eventType: string, low: nat): seq<Place>
    requires low <= |routes|
    decreases |routes| - low
  {
    if low == |routes| then []
    else (if RouteMatches(routes[low], topic, eventType) then RoutePlaces(routes, low) else [])
         + PlacesFrom(routes, topic, eventType, low + 1)
  }

  // ----- They are the applicable ones -----

  lemma {:induction false} PlacesExact(routes: seq<Route>, topic: string, eventType: string, low: nat, p: Place)
    requires low <= |routes|
    ensures p in PlacesFrom(routes, topic, eventType, low) <==>
            low <= p.route && Applies(routes, topic, eventType, p)
    decreases |routes| - low
  {
    if low < |routes| {
      PlacesExact(routes, topic, eventType, low + 1, p);
      RoutePlacesExact(routes, low, p);
    }
  }

  lemma {:induction false} RoutePlacesExact(routes: seq<Route>, i: nat, p: Place)
    requires i < |routes|
    ensures p in RoutePlaces(routes, i) <==> p.route == i && InRange(routes, p)
  {}

  // ----- They ascend -----

  lemma {:induction false} FlagAscends(routes: seq<Route>, i: nat, required: bool)
    requires i < |routes|
    ensures Ascending(routes, FlagPlaces(routes, i, required))
  {
    var indices := Indices(routes[i].destinations, required, 0);
    var places := FlagPlaces(routes, i, required);
    IndicesAscend(routes[i].destinations, required, 0);
    forall k, l | 0 <= k < l < |places|
      ensures Precedes(routes, places[k], places[l])
    {
      assert indices[k] in indices && indices[l] in indices && indices[k] < indices[l];
      assert places[k] == Place(i, indices[k]) && places[l] == Place(i, indices[l]);
    }
  }

  lemma {:induction false} AscendingConcat(routes: seq<Route>, a: seq<Place>, b: seq<Place>)
    requires Ascending(routes, a) && Ascending(routes, b)
    requires forall p, q :: p in a && q in b ==> Precedes(routes, p, q)
    ensures Ascending(routes, a + b)
  {
    var all := a + b;
    forall k, l | 0 <= k < l < |all|
      ensures Precedes(routes, all[k], all[l])
    {
      if k < |a| <= l {
        assert all[k] in a && all[l] in b;
      }
    }
  }

  lemma {:induction false} RouteAscends(routes: seq<Route>, i: nat)
    requires i < |routes|
    ensures Ascending(routes, RoutePlaces(routes, i))
  {
    FlagAscends(routes, i, true);
    FlagAscends(routes, i, false);
    AscendingConcat(routes, FlagPlaces(routes, i, true), FlagPlaces(routes, i, false));
  }

  lemma {:induction false} PlacesAscend(routes: seq<Route>, topic: string, eventType: string, low: nat)
    requires low <= |routes|
    ensures Ascending(routes, PlacesFrom(routes, topic, eventType, low))
    decreases |routes| - low
  {
    if low < |routes| {
      PlacesAscend(routes, topic, eventType, low + 1);
      var rest := PlacesFrom(routes, topic, eventType, low + 1);
      RouteAscends(routes, low);
      RouteBeforeRest(routes, topic, eventType, low);
      var here := if RouteMatches(routes[low], topic, eventType) then RoutePlaces(routes, low) else [];
      AscendingConcat(routes, here, rest);
    }
  }

  lemma {:induction false} RouteBeforeRest(routes: seq<Route>, topic: string, eventType: string, low: nat)
    requires low < |routes|
    ensures forall p, q :: p in RoutePlaces(routes, low) && q in PlacesFrom(routes, topic, eventType, low + 1) ==>
              Precedes(routes, p, q)
  {
    forall p, q | p in RoutePlaces(routes, low) && q in PlacesFrom(routes, topic, eventType, low + 1)
      ensures Precedes(routes, p, q)
    {
      PlacesExact(routes, topic, eventType, low + 1, q);
    }
  }

  // ----- The slots stand for them -----

  lemma {:induction false} FlagStands(routes: seq<Route>, i: nat, required: bool)
    requires i < |routes|
    ensures AllStand(routes, FlagPlaces(routes, i, required),
                     SlotsFor(routes[i], WithRequired(routes[i].destinations, required)))
  {
    var ds := routes[i].destinations;
    IndicesPick(ds, required, 0);
    assert ds[0..] == ds;
  }

  lemma {:induction false} StandConcat(routes: seq<Route>, p: seq<Place>, q: seq<Place>, a: seq<Slot>, b: seq<Slot>)
    requires AllStand(routes, p, a) && AllStand(routes, q, b)
    ensures AllStand(routes, p + q, a + b)
  {}

  lemma {:induction false} FlattenStep(route: Route, matches: bool, rest: seq<Route>)
    ensures Flatten((if matches then [route] else []) + rest) ==
            (if matches then RouteSlots(route) else []) + Flatten(rest)
  {
    if matches {
      assert ([route] + rest)[1..] == rest;
    } else {
      assert [] + rest == rest;
    }
  }

  lemma {:induction false} PlacesStand(routes: seq<Route>, topic: string, eventType: string, low: nat)
    requires low <= |routes|
    ensures AllStand(routes, PlacesFrom(routes, topic, eventType, low),
                     Flatten(MatchedRoutes(routes[low..], topic, eventType)))
    decreases |routes| - low
  {
    if low < |routes| {
      PlacesStand(routes, topic, eventType, low + 1);
      var route, rest := routes[low], routes[low + 1..];
      assert routes[low..][1..] == rest && routes[low..][0] == route;
      FlattenStep(route, RouteMatches(route, topic, eventType), MatchedRoutes(rest, topic, eventType));
      var here := if RouteMatches(route, topic, eventType) then RoutePlaces(routes, low) else [];
      var slots := if RouteMatches(route, topic, eventType) then RouteSlots(route) else [];
      RouteStands(routes, low);
      StandConcat(routes, here, PlacesFrom(routes, topic, eventType, low + 1), slots,
                  Flatten(MatchedRoutes(rest, topic, eventType)));
    }
  }

  lemma {:induction false} RouteStands(routes: seq<Route>, i: nat)
    requires i < |routes|
    ensures AllStand(routes, RoutePlaces(routes, i), RouteSlots(routes[i]))
  {
    FlagStands(routes, i, true);
    FlagStands(routes, i, false);
    StandConcat(routes, FlagPlaces(routes, i, true), FlagPlaces(routes, i, false),
                SlotsFor(routes[i], WithRequired(routes[i].destinations, true)),
                SlotsFor(routes[i], WithRequired(routes[i].destinations, false)));
  }

  /**
    The schedule of a message lists the destinations of the matching routes, each exactly
    once: routes in configuration order, and within a route the required destinations before
    the optional ones, each group in configuration order.
   */
  lemma {:induction false} ScheduleInOrder(config: Config, topic: string, envelope: Envelope)
    returns (places: seq<Place>)
    ensures Lists(config.routes, topic, envelope.eventType, places, Schedule(config, topic, envelope))
  {
    var routes, eventType := config.routes, envelope.eventType;
    places := PlacesFrom(routes, topic, eventType, 0);
    assert routes[0..] == routes;
    PlacesStand(routes, topic, eventType, 0);
    PlacesAscend(routes, topic, eventType, 0);
    forall p
      ensures p in places <==> Applies(routes, topic, eventType, p)
    {
      PlacesExact(routes, topic, eventType, 0, p);
    }
  }
}
