/** The route a counter event takes after a stream has updated its own block
    (stream_metrics.cpp:50-140): to the stream's origin, looked up by identity
    in the owning application, and from there on to that origin's origin, until
    either a stream without an origin forwards to the application aggregate, or
    an origin identity that is not registered absorbs the event.

    The route is computed over the application's origin map (stream identity
    to origin identity). The source recurses without a bound, so it terminates
    only on an acyclic chain; here a chain is acyclic when it ends within as
    many hops as there are registered streams. */
module Forwarding {
  import opened Info
  import opened Counters

  type OriginMap = map<StreamId, Option<StreamId>>

  /** Following origins from `o` meets an end within `n` resolved hops. */
  predicate EndsWithin(m: OriginMap, o: Option<StreamId>, n: nat)
    decreases n
  {
    match o
    case None => true
    case Some(k) => k !in m || (n > 0 && EndsWithin(m, m[k], n - 1))
  }

  /** The registered streams the event is forwarded to, in order. */
  function RouteWithin(m: OriginMap, o: Option<StreamId>, n: nat): seq<StreamId>
    requires EndsWithin(m, o, n)
    decreases n
  {
    match o
    case None => []
    case Some(k) => if k !in m then [] else [k] + RouteWithin(m, m[k], n - 1)
  }

  /** Whether the route ends at a stream without an origin, which forwards the
      event to the application aggregate. */
  predicate RootWithin(m: OriginMap, o: Option<StreamId>, n: nat)
    requires EndsWithin(m, o, n)
    decreases n
  {
    match o
    case None => true
    case Some(k) => k in m && RootWithin(m, m[k], n - 1)
  }

  predicate Acyclic(m: OriginMap, o: Option<StreamId>) {
    EndsWithin(m, o, |m|)
  }

  function Route(m: OriginMap, o: Option<StreamId>): seq<StreamId>
    requires Acyclic(m, o)
  {
    RouteWithin(m, o, |m|)
  }

  predicate ReachesApp(m: OriginMap, o: Option<StreamId>)
    requires Acyclic(m, o)
  {
    RootWithin(m, o, |m|)
  }

  /** More fuel changes neither termination nor the route. */
  lemma {:induction false} FuelMonotone(m: OriginMap, o: Option<StreamId>, n: nat, n': nat)
    requires EndsWithin(m, o, n) && n <= n'
    ensures EndsWithin(m, o, n')
    ensures RouteWithin(m, o, n') == RouteWithin(m, o, n)
    ensures RootWithin(m, o, n') == RootWithin(m, o, n)
    decreases n
  {
    match o
    case None =>
    case Some(k) =>
      if k in m {
        FuelMonotone(m, m[k], n - 1, n' - 1);
      }
  }

  /** One forwarding step: a registered origin `k` passes the event on along
      its own origin's route, which is strictly shorter. */
  lemma RouteStep(m: OriginMap, k: StreamId)
    requires k in m && Acyclic(m, Some(k))
    ensures Acyclic(m, m[k])
    ensures Route(m, Some(k)) == [k] + Route(m, m[k])
    ensures ReachesApp(m, Some(k)) == ReachesApp(m, m[k])
  {
    FuelMonotone(m, m[k], |m| - 1, |m|);
  }

  /** A stream whose origin is not registered forwards nowhere. */
  lemma UnresolvedOriginAbsorbs(m: OriginMap, k: StreamId)
    requires k !in m
    ensures Acyclic(m, Some(k))
    ensures Route(m, Some(k)) == [] && !ReachesApp(m, Some(k))
  {
  }

  /** A stream without an origin forwards to the application and nowhere else. */
  lemma RootForwardsToApp(m: OriginMap)
    ensures Acyclic(m, None)
    ensures Route(m, None) == [] && ReachesApp(m, None)
  {
  }

  /** A stream derived from a registered root stream `o` reaches `o` and then
      the application: once each, so the aggregate sees the event once. */
  lemma DerivedOfRootReachesAppOnce(m: OriginMap, o: StreamId)
    requires o in m && m[o] == None
    ensures Acyclic(m, Some(o))
    ensures Route(m, Some(o)) == [o] && ReachesApp(m, Some(o))
  {
    var rest := m - {o};
    assert m == rest[o := None];
    assert |m| == |rest| + 1;
    assert RouteWithin(m, None, |m| - 1) == [];
  }

  /** Every stream on the route is registered. */
  lemma {:induction false} RouteRegistered(m: OriginMap, o: Option<StreamId>, n: nat)
    requires EndsWithin(m, o, n)
    ensures forall k :: k in RouteWithin(m, o, n) ==> k in m
    decreases n
  {
    match o
    case None =>
    case Some(k) =>
      if k in m {
        RouteRegistered(m, m[k], n - 1);
      }
  }

  /** Once the route passes `k`, it continues as `k`'s own origin chain, which
      then ends with one hop less. */
  lemma {:induction false} PastOnRoute(m: OriginMap, o: Option<StreamId>, n: nat, k: StreamId)
    requires EndsWithin(m, o, n) && k in RouteWithin(m, o, n)
    ensures k in m && n > 0 && EndsWithin(m, m[k], n - 1)
    decreases n
  {
    match o
    case None =>
    case Some(j) =>
      if j != k {
        PastOnRoute(m, m[j], n - 1, k);
        FuelMonotone(m, m[k], n - 2, n - 1);
      }
  }

  /** A registered stream does not occur on its own origin's route: the
      forwarding never comes back to the stream it started from. */
  lemma {:induction false} NotOnOwnRouteWithin(m: OriginMap, k: StreamId, n: nat)
    requires k in m && EndsWithin(m, m[k], n)
    ensures k !in RouteWithin(m, m[k], n)
    decreases n
  {
    if k in RouteWithin(m, m[k], n) {
      PastOnRoute(m, m[k], n, k);
      FuelMonotone(m, m[k], n - 1, n);
      NotOnOwnRouteWithin(m, k, n - 1);
    }
  }

  lemma NotOnOwnRoute(m: OriginMap, k: StreamId)
    requires k in m && Acyclic(m, m[k])
    ensures k !in Route(m, m[k])
  {
    NotOnOwnRouteWithin(m, k, |m|);
  }

  /** No stream occurs twice on a route. */
  lemma {:induction false} RouteDistinctWithin(m: OriginMap, o: Option<StreamId>, n: nat)
    requires EndsWithin(m, o, n)
    ensures Distinct(RouteWithin(m, o, n))
    decreases n
  {
    match o
    case None =>
    case Some(k) =>
      if k in m {
        RouteDistinctWithin(m, m[k], n - 1);
        NotOnOwnRouteWithin(m, k, n - 1);
      }
  }

  predicate Distinct(s: seq<StreamId>) {
    forall i, j :: 0 <= i < j < |s| ==> s[i] != s[j]
  }

  function Elements(s: seq<StreamId>): set<StreamId> {
    set k | k in s
  }

  /** The stream set of a route without repetitions has the route's length. */
  lemma {:induction false} DistinctCard(s: seq<StreamId>)
    requires Distinct(s)
    ensures |Elements(s)| == |s|
  {
    if s != [] {
      assert Distinct(s[1..]) by {
        forall i, j | 0 <= i < j < |s| - 1 ensures s[1..][i] != s[1..][j] {
          assert s[1..][i] == s[i + 1] && s[1..][j] == s[j + 1];
        }
      }
      DistinctCard(s[1..]);
      var tail := Elements(s[1..]);
      assert Elements(s) == {s[0]} + tail;
      assert s[0] !in tail by {
        forall i | 0 <= i < |s| - 1 ensures s[1..][i] != s[0] {
          assert s[1..][i] == s[i + 1];
        }
      }
      assert |{s[0]} + tail| == |tail| + 1;
    }
  }

  /** The application is reached exactly when the route ends at a stream with
      no origin: directly, or through the last stream the route visits. */
  lemma {:induction false} ReachesAppAtRoot(m: OriginMap, o: Option<StreamId>, n: nat)
    requires EndsWithin(m, o, n)
    ensures var r := RouteWithin(m, o, n);
      RootWithin(m, o, n) <==> (if r == [] then o == None else r[|r| - 1] in m && m[r[|r| - 1]] == None)
    decreases n
  {
    match o
    case None =>
    case Some(k) =>
      if k in m {
        RouteRegistered(m, m[k], n - 1);
        ReachesAppAtRoot(m, m[k], n - 1);
      }
  }

  /** A registered stream `k` touches exactly itself and the streams on its
      origin's route: all distinct, one more than the chain's depth, plus at
      most one application update. */
  lemma ForwardingFootprint(m: OriginMap, k: StreamId)
    requires k in m && Acyclic(m, m[k])
    ensures var touched := {k} + Elements(Route(m, m[k]));
      |touched| == |Route(m, m[k])| + 1 && touched <= m.Keys
  {
    var r := Route(m, m[k]);
    RouteDistinctWithin(m, m[k], |m|);
    DistinctCard(r);
    NotOnOwnRoute(m, k);
    RouteRegistered(m, m[k], |m|);
    var onRoute := Elements(r);
    assert k !in onRoute;
    assert |{k} + onRoute| == |onRoute| + 1;
  }

  /** The counts of each stream after applying `e` to the streams in `keys`. */
  function ApplyAt(counts: map<StreamId, CounterBlock>, keys: set<StreamId>, e: Event): map<StreamId, CounterBlock> {
    map k | k in counts :: if k in keys then Apply(counts[k], e) else counts[k]
  }

  /** Applying an event to two disjoint sets of streams in turn applies it
      once to each stream of their union. */
  lemma ApplyAtUnion(counts: map<StreamId, CounterBlock>, a: set<StreamId>, b: set<StreamId>, e: Event)
    requires a !! b
    ensures ApplyAt(ApplyAt(counts, a, e), b, e) == ApplyAt(counts, a + b, e)
  {
  }
}
