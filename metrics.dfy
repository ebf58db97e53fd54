/** Stream, application and host metrics (stream_metrics.cpp and the
    ApplicationMetrics and HostMetrics containers it and the registry use).
    The three classes refer to one another, so they share one module. */
module Metrics {
  import opened Info
  import opened Counters
  import opened Forwarding

  /** The metrics of one live stream. `app` is the owning application
      (`_app_metrics`); `origin` is the identity of the stream this one derives
      from, a lookup key and never an owning reference. */
  class StreamMetrics {
    const id: StreamId
    const origin: Option<StreamId>
    const app: ApplicationMetrics
    var counters: CounterBlock
    var requestTimeToOrigin: real
    var responseTimeFromOrigin: real

    constructor (info: StreamInfo, app: ApplicationMetrics)
      ensures id == info.id && origin == info.origin && this.app == app
      ensures counters == Zero
    {
      id := info.id;
      origin := info.origin;
      this.app := app;
      counters := Zero;
      requestTimeToOrigin := 0.0;
      responseTimeFromOrigin := 0.0;
    }

    function GetOriginRequestTimeMSec(): real
      reads this
    {
      requestTimeToOrigin
    }

    function GetOriginResponseTimeMSec(): real
      reads this
    {
      responseTimeFromOrigin
    }

    /** Stores the latency and touches the block; nothing else changes. */
    method SetOriginRequestTimeMSec(value: real)
      modifies `requestTimeToOrigin, `counters
      ensures GetOriginRequestTimeMSec() == value
      ensures GetOriginResponseTimeMSec() == old(GetOriginResponseTimeMSec())
      ensures counters == old(counters).Touch()
    {
      requestTimeToOrigin := value;
      counters := counters.Touch();
    }

    method SetOriginResponseTimeMSec(value: real)
      modifies `responseTimeFromOrigin, `counters
      ensures GetOriginResponseTimeMSec() == value
      ensures GetOriginRequestTimeMSec() == old(GetOriginRequestTimeMSec())
      ensures counters == old(counters).Touch()
    {
      responseTimeFromOrigin := value;
      counters := counters.Touch();
    }

    /** This object is the one its application holds under its identity. */
    ghost predicate Registered()
      reads app
    {
      id in app.streams && app.streams[id] == this
    }

    /** The registered streams whose blocks an event on this stream updates:
        this one if it is registered, then every stream on its origin route. */
    ghost function Reached(): set<StreamId>
      reads app
      requires Acyclic(app.Origins(), origin)
    {
      (if Registered() then {id} else {}) + Elements(Route(app.Origins(), origin))
    }

    /** The shape shared by IncreaseBytesIn, IncreaseBytesOut,
        OnSessionConnected and OnSessionDisconnected: update the local block,
        then pass the same event to the origin if it resolves, or, for a stream
        without an origin, to the application aggregate. */
    method Forward(e: Event)
      requires app.Valid() && Acyclic(app.Origins(), origin)
      modifies `counters, app`counters, app.streams.Values`counters
      decreases |Route(app.Origins(), origin)|, 2
      ensures counters == Apply(old(counters), e)
      ensures app.Counts() == ApplyAt(old(app.Counts()), old(Reached()), e)
      ensures app.counters == if old(ReachesApp(app.Origins(), origin)) then Apply(old(app.counters), e) else old(app.counters)
    {
      if origin.Some? {
        ForwardDerived(e);
      } else {
        RootForwardsToApp(app.Origins());
        assert Elements([]) == {};
        ForwardRoot(e);
      }
    }

    /** A stream without an origin: the local block and the aggregate. */
    method ForwardRoot(e: Event)
      requires origin.None? && app.Valid()
      modifies `counters, app`counters
      ensures counters == Apply(old(counters), e)
      ensures app.Counts() == ApplyAt(old(app.Counts()), if old(Registered()) then {id} else {}, e)
      ensures app.counters == Apply(old(app.counters), e)
    {
      ApplyLocal(e);
      app.Aggregate(e);
    }

    /** A derived stream: the local block, then the origin route. */
    method ForwardDerived(e: Event)
      requires origin.Some? && app.Valid() && Acyclic(app.Origins(), origin)
      modifies `counters, app`counters, app.streams.Values`counters
      decreases |Route(app.Origins(), origin)|, 1
      ensures counters == Apply(old(counters), e)
      ensures app.Counts() == ApplyAt(old(app.Counts()), old(Reached()), e)
      ensures app.counters == if old(ReachesApp(app.Origins(), origin)) then Apply(old(app.counters), e) else old(app.counters)
    {
      ghost var m := app.Origins();
      ghost var before := app.Counts();
      ghost var mine: set<StreamId> := if Registered() then {id} else {};
      if Registered() {
        assert m[id] == origin;
        NotOnOwnRoute(m, id);
      }
      ApplyLocal(e);
      assert app.Origins() == m;
      ForwardToOrigin(origin.value, e);
      ApplyAtUnion(before, mine, Elements(Route(m, origin)), e);
    }

    /** The branch for a derived stream: resolve the origin identity through
        the owning application and, if it is registered, let the origin stream
        handle the event; otherwise the event stops here. */
    method ForwardToOrigin(k: StreamId, e: Event)
      requires origin == Some(k) && app.Valid() && Acyclic(app.Origins(), origin)
      requires Registered() ==> id !in Route(app.Origins(), origin)
      modifies app`counters, app.streams.Values`counters
      decreases |Route(app.Origins(), origin)|, 0
      ensures counters == old(counters)
      ensures app.Counts() == ApplyAt(old(app.Counts()), Elements(Route(app.Origins(), origin)), e)
      ensures app.counters == if ReachesApp(app.Origins(), origin) then Apply(old(app.counters), e) else old(app.counters)
    {
      ghost var m := app.Origins();
      var found := app.GetStreamMetrics(k);
      if found.Some? {
        var o := found.value;
        RouteStep(m, k);
        assert o.origin == m[k];
        assert o.Registered() && o != this;
        assert o.Reached() == Elements(Route(m, origin));
        ghost var mineBefore := if Registered() then old(app.Counts())[id] else counters;
        assert !Registered() ==> this !in app.streams.Values;
        o.Forward(e);
        if Registered() {
          assert counters == app.Counts()[id] == mineBefore;
        }
      } else {
        UnresolvedOriginAbsorbs(m, k);
      }
    }

    /** The local update (CommonMetrics' own operation): only this stream's
        block changes, which the registry sees if this stream is registered. */
    method ApplyLocal(e: Event)
      requires app.Valid()
      modifies `counters
      ensures counters == Apply(old(counters), e)
      ensures app.Counts() == ApplyAt(old(app.Counts()), if Registered() then {id} else {}, e)
    {
      counters := Apply(counters, e);
      assert forall k :: k in app.streams ==> (app.streams[k] == this <==> k == id && Registered());
    }

    /** IncreaseBytesIn: the local bytes-in grows by `value`, and so does that
        of each stream on the origin route and, at a root, the aggregate's. */
    method IncreaseBytesIn(value: uint64)
      requires app.Valid() && Acyclic(app.Origins(), origin)
      modifies `counters, app`counters, app.streams.Values`counters
      ensures counters == Apply(old(counters), BytesIn(value))
      ensures app.Counts() == ApplyAt(old(app.Counts()), old(Reached()), BytesIn(value))
      ensures app.counters == if old(ReachesApp(app.Origins(), origin)) then Apply(old(app.counters), BytesIn(value)) else old(app.counters)
    {
      Forward(BytesIn(value));
    }

    method IncreaseBytesOut(t: PublisherType, value: uint64)
      requires app.Valid() && Acyclic(app.Origins(), origin)
      modifies `counters, app`counters, app.streams.Values`counters
      ensures counters == Apply(old(counters), BytesOut(t, value))
      ensures app.Counts() == ApplyAt(old(app.Counts()), old(Reached()), BytesOut(t, value))
      ensures app.counters == if old(ReachesApp(app.Origins(), origin)) then Apply(old(app.counters), BytesOut(t, value)) else old(app.counters)
    {
      Forward(BytesOut(t, value));
    }

    method OnSessionConnected(t: PublisherType)
      requires app.Valid() && Acyclic(app.Origins(), origin)
      modifies `counters, app`counters, app.streams.Values`counters
      ensures counters == Apply(old(counters), SessionConnected(t))
      ensures app.Counts() == ApplyAt(old(app.Counts()), old(Reached()), SessionConnected(t))
      ensures app.counters == if old(ReachesApp(app.Origins(), origin)) then Apply(old(app.counters), SessionConnected(t)) else old(app.counters)
    {
      Forward(SessionConnected(t));
    }

    method OnSessionDisconnected(t: PublisherType)
      requires app.Valid() && Acyclic(app.Origins(), origin)
      modifies `counters, app`counters, app.streams.Values`counters
      ensures counters == Apply(old(counters), SessionDisconnected(t))
      ensures app.Counts() == ApplyAt(old(app.Counts()), old(Reached()), SessionDisconnected(t))
      ensures app.counters == if old(ReachesApp(app.Origins(), origin)) then Apply(old(app.counters), SessionDisconnected(t)) else old(app.counters)
    {
      Forward(SessionDisconnected(t));
    }
  }

  /** The metrics of one application: its stream registry and the aggregate
      block that origin streams forward into. */
  class ApplicationMetrics {
    const id: AppId
    const hostId: HostId
    var streams: map<StreamId, StreamMetrics>
    var counters: CounterBlock

    constructor (info: AppInfo)
      ensures id == info.id && hostId == info.host.id
      ensures streams == map[] && counters == Zero
    {
      id := info.id;
      hostId := info.host.id;
      streams := map[];
      counters := Zero;
    }

    /** Each registered stream carries the identity it is registered under and
        belongs to this application. */
    ghost predicate Valid()
      reads this
    {
      forall k :: k in streams ==> streams[k].id == k && streams[k].app == this
    }

    function Origins(): OriginMap
      reads `streams
    {
      map k | k in streams :: streams[k].origin
    }

    ghost function Counts(): map<StreamId, CounterBlock>
      reads `streams, streams.Values`counters
    {
      map k | k in streams :: streams[k].counters
    }

    function GetStreamMetrics(k: StreamId): (r: Option<StreamMetrics>)
      reads this
      ensures r.Some? <==> k in streams
      ensures r.Some? ==> r.value == streams[k]
      ensures Valid() && r.Some? ==> r.value.id == k && r.value.app == this
    {
      if k in streams then Some(streams[k]) else None
    }

    /** Creation is idempotent: an identity already registered keeps its
        metrics; a new one gets fresh, zeroed metrics. */
    method OnStreamCreated(info: StreamInfo) returns (ok: bool)
      requires Valid()
      modifies `streams
      ensures Valid() && ok
      ensures info.id in old(streams) ==> streams == old(streams)
      ensures info.id !in old(streams) ==>
        && info.id in streams
        && streams == old(streams)[info.id := streams[info.id]]
        && fresh(streams[info.id])
        && streams[info.id].origin == info.origin
        && streams[info.id].counters == Zero
    {
      if info.id in streams {
        return true;
      }
      var s := new StreamMetrics(info, this);
      streams := streams[info.id := s];
      ok := true;
    }

    /** Deletion fails on an identity that is not registered. */
    method OnStreamDeleted(info: StreamInfo) returns (ok: bool)
      requires Valid()
      modifies `streams
      ensures Valid()
      ensures ok == (info.id in old(streams))
      ensures streams == old(streams) - {info.id}
    {
      if info.id !in streams {
        return false;
      }
      streams := streams - {info.id};
      ok := true;
    }

    /** The aggregate entry point origin streams forward into. */
    method Aggregate(e: Event)
      modifies `counters
      ensures counters == Apply(old(counters), e)
      ensures Counts() == old(Counts())
    {
      counters := Apply(counters, e);
    }
  }

  /** The metrics of one host: its application registry. */
  class HostMetrics {
    const id: HostId
    var apps: map<AppId, ApplicationMetrics>

    constructor (info: HostInfo)
      ensures id == info.id && apps == map[]
    {
      id := info.id;
      apps := map[];
    }

    ghost predicate Valid()
      reads this, apps.Values
    {
      forall a :: a in apps ==> apps[a].id == a && apps[a].hostId == id && apps[a].Valid()
    }

    /** The host's content: each application's stream map. */
    ghost function Content(): map<AppId, map<StreamId, StreamMetrics>>
      reads this, apps.Values
    {
      map a | a in apps :: apps[a].streams
    }

    function GetApplicationMetrics(a: AppId): (r: Option<ApplicationMetrics>)
      reads this
      ensures r.Some? <==> a in apps
      ensures r.Some? ==> r.value == apps[a]
    {
      if a in apps then Some(apps[a]) else None
    }

    method OnApplicationCreated(info: AppInfo) returns (ok: bool)
      requires Valid() && info.host.id == id
      modifies `apps
      ensures Valid() && ok
      ensures info.id in old(apps) ==> apps == old(apps)
      ensures info.id !in old(apps) ==>
        && info.id in apps
        && apps == old(apps)[info.id := apps[info.id]]
        && fresh(apps[info.id])
        && apps[info.id].streams == map[]
        && apps[info.id].counters == Zero
      ensures Content() == old(Content())[info.id := if info.id in old(apps) then old(Content())[info.id] else map[]]
    {
      if info.id in apps {
        return true;
      }
      var a := new ApplicationMetrics(info);
      apps := apps[info.id := a];
      ok := true;
    }

    method OnApplicationDeleted(info: AppInfo) returns (ok: bool)
      requires Valid()
      modifies `apps
      ensures Valid()
      ensures ok == (info.id in old(apps))
      ensures apps == old(apps) - {info.id}
      ensures Content() == old(Content()) - {info.id}
    {
      if info.id !in apps {
        return false;
      }
      apps := apps - {info.id};
      ok := true;
    }
  }
}
