/** Concrete runs of the model, each proved from the contracts alone: what a
    caller of the registry can rely on. */
module Scenarios {
  import opened Info
  import opened Counters
  import opened Forwarding
  import opened Metrics
  import opened Registry

  /** An application with an origin stream 10 and a stream 20 relayed from it. */
  method OriginAndRelay() returns (app: ApplicationMetrics, o: StreamMetrics, d: StreamMetrics)
    ensures fresh(app) && app.Valid() && app.streams == map[10 := o, 20 := d]
    ensures o.id == 10 && o.app == app && o.origin == None
    ensures d.id == 20 && d.app == app && d.origin == Some(10)
    ensures o.counters == Zero && d.counters == Zero && app.counters == Zero
  {
    var appInfo := AppInfo(1, HostInfo(1));
    app := new ApplicationMetrics(appInfo);
    var ok := app.OnStreamCreated(StreamInfo(10, appInfo, None));
    ok := app.OnStreamCreated(StreamInfo(20, appInfo, Some(10)));
    o := app.streams[10];
    d := app.streams[20];
  }

  /** The relay of OriginAndRelay reaches itself and its origin. */
  lemma RelayReaches(app: ApplicationMetrics, d: StreamMetrics)
    requires app.streams.Keys == {10, 20} && app.Valid() && d == app.streams[20]
    requires app.streams[10].origin == None && d.origin == Some(10)
    ensures Acyclic(app.Origins(), d.origin) && ReachesApp(app.Origins(), d.origin)
    ensures d.Reached() == {20, 10}
  {
    var m := app.Origins();
    assert m == map[10 := None, 20 := Some(10)];
    DerivedOfRootReachesAppOnce(m, 10);
    assert d.Registered();
    assert Elements([10]) == {10} by {
      assert 10 in [10];
    }
  }

  /** A byte-in event on the relayed stream reaches it, its origin and the
      application, each exactly once. */
  method DerivedStreamCountsBytesOnce() returns (derived: nat, origin: nat, aggregate: nat)
    ensures derived == 100 && origin == 100 && aggregate == 100
  {
    var app, o, d := OriginAndRelay();
    RelayReaches(app, d);
    d.IncreaseBytesIn(100);
    assert app.Counts()[10] == o.counters;
    derived, origin, aggregate := d.counters.bytesIn, o.counters.bytesIn, app.counters.bytesIn;
  }

  /** A session connect on the relayed stream is counted once on it, once on
      its origin and once on the application, per publisher type and in total. */
  method DerivedStreamCountsSessionOnce() returns (derived: CounterBlock, origin: CounterBlock, aggregate: CounterBlock)
    ensures derived.GetConnections(7) == 1 && origin.GetConnections(7) == 1 && aggregate.GetConnections(7) == 1
    ensures derived.totalConnections == 1 && origin.totalConnections == 1 && aggregate.totalConnections == 1
  {
    var app, o, d := OriginAndRelay();
    RelayReaches(app, d);
    d.OnSessionConnected(7);
    assert app.Counts()[10] == o.counters;
    derived, origin, aggregate := d.counters, o.counters, app.counters;
  }

  /** A stream whose origin is not registered keeps the event to itself: the
      application aggregate does not move. */
  method StaleOriginIsAbsorbed() returns (stream: CounterBlock, aggregate: CounterBlock)
    ensures stream.bytesIn == 5 && aggregate == Zero
  {
    var appInfo := AppInfo(1, HostInfo(1));
    var app := new ApplicationMetrics(appInfo);
    var ok := app.OnStreamCreated(StreamInfo(20, appInfo, Some(10)));
    var d := app.streams[20];
    assert app.Origins() == map[20 := Some(10)];
    UnresolvedOriginAbsorbs(app.Origins(), 10);
    d.IncreaseBytesIn(5);
    stream, aggregate := d.counters, app.counters;
  }

  /** Registers one host and one application, the ancestors of `stream`. */
  method SetUp(stream: StreamInfo) returns (mon: Monitoring)
    ensures fresh(mon) && mon.Valid() && fresh(mon.Apps())
    ensures HasApp(mon.Content(), stream.app)
    ensures mon.Content()[stream.app.host.id][stream.app.id] == map[]
  {
    mon := new Monitoring();
    var ok := mon.OnHostCreated(stream.app.host);
    ok := mon.OnApplicationCreated(stream.app);
  }

  /** The lookup that materializes a stream returns absent; the next lookup
      finds the stream it created. */
  method LazyCreationReturnsAbsent() returns (first: Option<StreamMetrics>, second: Option<StreamMetrics>)
    ensures first.None? && second.Some?
  {
    var stream := StreamInfo(3, AppInfo(2, HostInfo(1)), None);
    var mon := SetUp(stream);
    first := mon.GetStreamMetrics(stream);
    second := mon.GetStreamMetrics(stream);
  }

  /** Looking up a registered stream twice returns the same object both
      times, and its counters are left as they were. */
  method RepeatedLookupKeepsInstance(mon: Monitoring, stream: StreamInfo) returns (first: Option<StreamMetrics>, second: Option<StreamMetrics>)
    requires mon.Valid() && HasApp(mon.Content(), stream.app)
    requires stream.id in mon.Content()[stream.app.host.id][stream.app.id]
    modifies mon.Apps()`streams
    ensures first.Some? && second == first
    ensures first.value == old(mon.Content()[stream.app.host.id][stream.app.id][stream.id])
    ensures first.value.counters == old(first.value.counters)
  {
    first := mon.GetStreamMetrics(stream);
    second := mon.GetStreamMetrics(stream);
  }

  /** With the corrected lookup the materializing call already returns the
      metrics, and the next call returns the same object. */
  method LazyCreationCorrected() returns (first: Option<StreamMetrics>, second: Option<StreamMetrics>)
    ensures first.Some? && second == first
  {
    var stream := StreamInfo(3, AppInfo(2, HostInfo(1)), None);
    var mon := SetUp(stream);
    first := mon.GetOrCreateStreamMetrics(stream);
    second := mon.GetOrCreateStreamMetrics(stream);
  }

  /** Lifecycle calls below a host that was never created fail and create
      nothing, and repeated host creation succeeds without a duplicate. */
  method MissingAncestorFails() returns (appOk: bool, streamOk: bool, hostsAfter: nat)
    ensures !appOk && !streamOk && hostsAfter == 1
  {
    var mon := new Monitoring();
    var app := AppInfo(2, HostInfo(1));
    appOk := mon.OnApplicationCreated(app);
    streamOk := mon.OnStreamCreated(StreamInfo(3, app, None));
    var ok := mon.OnHostCreated(HostInfo(5));
    ok := mon.OnHostCreated(HostInfo(5));
    hostsAfter := |mon.hosts|;
  }
}
