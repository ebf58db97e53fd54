/** The top-level registry (monitoring.cpp): host metrics keyed by host
    identity, with lifecycle calls delegated down the host, application and
    stream chain, and lookups down the same chain. */
module Registry {
  import opened Info
  import opened Counters
  import opened Metrics

  /** The registry's content as nested maps of identities, down to the stream
      metrics objects. */
  type Tree = map<HostId, map<AppId, map<StreamId, StreamMetrics>>>

  /** Both ancestors of an application-level entry are registered. */
  predicate HasApp(t: Tree, info: AppInfo) {
    info.host.id in t && info.id in t[info.host.id]
  }

  /** `t` with the stream map of `info`'s application replaced by `s`. */
  function WithStreams(t: Tree, info: AppInfo, s: map<StreamId, StreamMetrics>): Tree
    requires info.host.id in t
  {
    var apps: map<AppId, map<StreamId, StreamMetrics>> := t[info.host.id][info.id := s];
    t[info.host.id := apps]
  }

  class Monitoring {
    var hosts: map<HostId, HostMetrics>

    constructor ()
      ensures Valid() && hosts == map[] && Apps() == {}
    {
      hosts := map[];
    }

    ghost function Apps(): set<ApplicationMetrics>
      reads this, hosts.Values
    {
      set h, a | h in hosts && a in hosts[h].apps :: hosts[h].apps[a]
    }

    /** Every entry carries the identity it is registered under, at every level. */
    ghost predicate Valid()
      reads this, hosts.Values, Apps()
    {
      forall h :: h in hosts ==> hosts[h].id == h && hosts[h].Valid()
    }

    ghost function Content(): Tree
      reads this, hosts.Values, Apps()
    {
      map h | h in hosts :: hosts[h].Content()
    }

    /** Idempotent creation: a known host keeps its metrics; a new one gets
        fresh, empty metrics. The call always succeeds. */
    method OnHostCreated(info: HostInfo) returns (ok: bool)
      requires Valid()
      modifies `hosts
      ensures Valid() && ok && Apps() == old(Apps())
      ensures info.id in old(hosts) ==> hosts == old(hosts)
      ensures info.id !in old(hosts) ==>
        && info.id in hosts
        && hosts == old(hosts)[info.id := hosts[info.id]]
        && fresh(hosts[info.id])
        && hosts[info.id].apps == map[]
    {
      if info.id in hosts {
        return true;
      }
      var h := new HostMetrics(info);
      hosts := hosts[info.id := h];
      ok := true;
      assert Apps() == old(Apps()) by {
        forall x | x in Apps() ensures x in old(Apps()) {
          var g, b :| g in hosts && b in hosts[g].apps && hosts[g].apps[b] == x;
          assert g != info.id && g in old(hosts) && hosts[g] == old(hosts[g]);
        }
        forall x | x in old(Apps()) ensures x in Apps() {
          var g, b :| g in old(hosts) && b in old(hosts[g].apps) && old(hosts[g].apps[b]) == x;
          assert g in hosts && hosts[g] == old(hosts[g]) && hosts[g].apps == old(hosts[g].apps);
        }
      }
    }

    /** Deleting an unknown host fails and changes nothing; deleting a known
        one removes exactly that entry. */
    method OnHostDeleted(info: HostInfo) returns (ok: bool)
      requires Valid()
      modifies `hosts
      ensures Valid()
      ensures ok == (info.id in old(hosts))
      ensures hosts == old(hosts) - {info.id}
    {
      if info.id !in hosts {
        return false;
      }
      hosts := hosts - {info.id};
      ok := true;
    }

    method OnApplicationCreated(info: AppInfo) returns (ok: bool)
      requires Valid()
      modifies hosts.Values`apps
      ensures Valid() && fresh(Apps() - old(Apps()))
      ensures ok == (info.host.id in old(hosts))
      ensures !ok ==> Content() == old(Content())
      ensures ok ==>
        var t := old(Content());
        Content() == WithStreams(t, info, if info.id in t[info.host.id] then t[info.host.id][info.id] else map[])
      ensures forall g :: g in hosts && g != info.host.id ==> hosts[g].apps == old(hosts[g].apps)
      ensures ok ==>
        var hm := hosts[info.host.id];
        && (info.id in old(hm.apps) ==> hm.apps == old(hm.apps))
        && (info.id !in old(hm.apps) ==>
              && info.id in hm.apps
              && hm.apps == old(hm.apps)[info.id := hm.apps[info.id]]
              && fresh(hm.apps[info.id])
              && hm.apps[info.id].streams == map[]
              && hm.apps[info.id].counters == Zero)
    {
      var h := GetHostMetrics(info.host);
      if h.None? {
        return false;
      }
      ghost var t := Content();
      ok := h.value.OnApplicationCreated(info);
      forall g | g in hosts && g != info.host.id
        ensures hosts[g].apps == old(hosts[g].apps) && hosts[g].Valid() && hosts[g].Content() == t[g]
      {
        assert hosts[g].id == g;
      }
      assert Content() == t[info.host.id := h.value.Content()];
      forall x | x in Apps() && x !in old(Apps()) ensures fresh(x) {
        var g, b :| g in hosts && b in hosts[g].apps && hosts[g].apps[b] == x;
        assert g == info.host.id && b == info.id;
      }
    }

    method OnApplicationDeleted(info: AppInfo) returns (ok: bool)
      requires Valid()
      modifies hosts.Values`apps
      ensures Valid()
      ensures ok == HasApp(old(Content()), info)
      ensures Content() ==
        var t := old(Content());
        if info.host.id in t then t[info.host.id := t[info.host.id] - {info.id}] else t
      ensures forall g :: g in hosts && g != info.host.id ==> hosts[g].apps == old(hosts[g].apps)
      ensures info.host.id in hosts ==> hosts[info.host.id].apps == old(hosts[info.host.id].apps) - {info.id}
    {
      var h := GetHostMetrics(info.host);
      if h.None? {
        return false;
      }
      ghost var t := Content();
      ok := h.value.OnApplicationDeleted(info);
      forall g | g in hosts && g != info.host.id
        ensures hosts[g].apps == old(hosts[g].apps)
      {
        assert hosts[g].id == g;
      }
      forall g | g in hosts && g != info.host.id
        ensures hosts[g].Valid() && hosts[g].Content() == t[g]
      {
      }
      assert Content() == t[info.host.id := h.value.Content()];
    }

    method OnStreamCreated(info: StreamInfo) returns (ok: bool)
      requires Valid()
      modifies Apps()`streams
      ensures Valid()
      ensures ok == HasApp(old(Content()), info.app)
      ensures !ok ==> Content() == old(Content())
      ensures ok ==>
        var app := hosts[info.app.host.id].apps[info.app.id];
        && Content() == WithStreams(old(Content()), info.app, app.streams)
        && (info.id in old(app.streams) ==> app.streams == old(app.streams))
        && (info.id !in old(app.streams) ==>
              && info.id in app.streams
              && app.streams == old(app.streams)[info.id := app.streams[info.id]]
              && fresh(app.streams[info.id])
              && app.streams[info.id].origin == info.origin
              && app.streams[info.id].counters == Zero)
    {
      var a := GetApplicationMetrics(info.app);
      if a.None? {
        return false;
      }
      ghost var t := Content();
      ok := a.value.OnStreamCreated(info);
      ghost var hm := hosts[info.app.host.id];
      forall g | g in hosts && g != info.app.host.id
        ensures hosts[g].Valid() && hosts[g].Content() == t[g]
      {
        assert a.value !in hosts[g].apps.Values;
      }
      ghost var inner: map<AppId, map<StreamId, StreamMetrics>> := t[info.app.host.id];
      assert hm.Content() == inner[info.app.id := a.value.streams];
    }

    method OnStreamDeleted(info: StreamInfo) returns (ok: bool)
      requires Valid()
      modifies Apps()`streams
      ensures Valid()
      ensures ok == (HasApp(old(Content()), info.app) && info.id in old(Content())[info.app.host.id][info.app.id])
      ensures Content() ==
        var t := old(Content());
        if HasApp(t, info.app) then WithStreams(t, info.app, t[info.app.host.id][info.app.id] - {info.id}) else t
    {
      var a := GetApplicationMetrics(info.app);
      if a.None? {
        return false;
      }
      ghost var t := Content();
      ok := a.value.OnStreamDeleted(info);
      ghost var hm := hosts[info.app.host.id];
      forall g | g in hosts && g != info.app.host.id
        ensures hosts[g].Valid() && hosts[g].Content() == t[g]
      {
        assert a.value !in hosts[g].apps.Values;
      }
      ghost var inner: map<AppId, map<StreamId, StreamMetrics>> := t[info.app.host.id];
      assert hm.Content() == inner[info.app.id := a.value.streams];
    }

    /** A pure lookup: absent exactly when the host is not registered. */
    function GetHostMetrics(info: HostInfo): (r: Option<HostMetrics>)
      reads this
      ensures r.Some? <==> info.id in hosts
      ensures r.Some? ==> r.value == hosts[info.id]
    {
      if info.id !in hosts then None else Some(hosts[info.id])
    }

    /** A pure lookup down the chain: absent exactly when the host or the
        application is not registered. */
    function GetApplicationMetrics(info: AppInfo): (r: Option<ApplicationMetrics>)
      reads this, hosts.Values
      ensures r.Some? <==> info.host.id in hosts && info.id in hosts[info.host.id].apps
      ensures r.Some? ==> r.value == hosts[info.host.id].apps[info.id]
    {
      match GetHostMetrics(info.host)
      case None => None
      case Some(h) => h.GetApplicationMetrics(info.id)
    }

    /** As written: a missing stream of a registered application is created,
        but the result is the lookup made before the creation, so the call
        that materializes the stream still returns absent. Hosts and
        applications are never created. */
    method GetStreamMetrics(info: StreamInfo) returns (r: Option<StreamMetrics>)
      requires Valid()
      modifies Apps()`streams
      ensures Valid()
      ensures var t := old(Content());
        r == if HasApp(t, info.app) && info.id in t[info.app.host.id][info.app.id]
             then Some(t[info.app.host.id][info.app.id][info.id]) else None
      ensures !HasApp(old(Content()), info.app) ==> Content() == old(Content())
      ensures HasApp(old(Content()), info.app) ==>
        var app := hosts[info.app.host.id].apps[info.app.id];
        && info.id in app.streams
        && Content() == WithStreams(old(Content()), info.app, app.streams)
        && app.streams == old(app.streams)[info.id := app.streams[info.id]]
        && (info.id in old(app.streams) ==> app.streams == old(app.streams))
        && (info.id !in old(app.streams) ==>
              && fresh(app.streams[info.id])
              && app.streams[info.id].origin == info.origin
              && app.streams[info.id].counters == Zero)
    {
      var a := GetApplicationMetrics(info.app);
      if a.None? {
        return None;
      }
      ghost var t := Content();
      r := a.value.GetStreamMetrics(info.id);
      if r.None? {
        var ok := OnStreamCreated(info);
        if !ok {
          return None;
        }
      } else {
        ghost var inner: map<AppId, map<StreamId, StreamMetrics>> := t[info.app.host.id];
        assert inner[info.app.id := a.value.streams] == inner;
        assert WithStreams(t, info.app, a.value.streams) == t;
      }
    }

    /** Corrected lookup: after materializing a missing stream, return the
        metrics that are now registered. */
    method GetOrCreateStreamMetrics(info: StreamInfo) returns (r: Option<StreamMetrics>)
      requires Valid()
      modifies Apps()`streams
      ensures Valid()
      ensures r.Some? <==> HasApp(old(Content()), info.app)
      ensures !HasApp(old(Content()), info.app) ==> Content() == old(Content())
      ensures HasApp(old(Content()), info.app) ==>
        var app := hosts[info.app.host.id].apps[info.app.id];
        && info.id in app.streams
        && r.value == app.streams[info.id]
        && Content() == WithStreams(old(Content()), info.app, app.streams)
        && app.streams == old(app.streams)[info.id := app.streams[info.id]]
        && (info.id in old(app.streams) ==> app.streams == old(app.streams) && r.value == old(app.streams)[info.id])
        && (info.id !in old(app.streams) ==>
              && fresh(app.streams[info.id])
              && app.streams[info.id].origin == info.origin
              && app.streams[info.id].counters == Zero)
    {
      var a := GetApplicationMetrics(info.app);
      if a.None? {
        return None;
      }
      ghost var t := Content();
      r := a.value.GetStreamMetrics(info.id);
      if r.None? {
        var ok := OnStreamCreated(info);
        if !ok {
          return None;
        }
        r := a.value.GetStreamMetrics(info.id);
      } else {
        ghost var inner: map<AppId, map<StreamId, StreamMetrics>> := t[info.app.host.id];
        assert inner[info.app.id := a.value.streams] == inner;
        assert WithStreams(t, info.app, a.value.streams) == t;
      }
    }
  }
}
