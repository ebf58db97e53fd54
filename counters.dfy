/** The counter block every tracked entity embeds (CommonMetrics). Its
    implementation is not part of this model; it is modelled as a record whose
    counters move by exactly the delta of each event. */
module Counters {

  /** The output protocol of a viewer session, used only as a bucketing key. */
  type PublisherType = nat

  /** The width of the values the counter-event APIs take. */
  type uint64 = x: nat | x < 0x1_0000_0000_0000_0000

  /** A counter event, applied to each block the forwarding reaches. */
  datatype Event =
    | BytesIn(value: uint64)
    | BytesOut(publisher: PublisherType, value: uint64)
    | SessionConnected(publisher: PublisherType)
    | SessionDisconnected(publisher: PublisherType)

  /** `updated` is an abstract stand-in for the last-update timestamp: it says
      that UpdateDate has run at least once. */
  datatype CounterBlock = CounterBlock(
    bytesIn: nat,
    bytesOut: map<PublisherType, nat>,
    connections: map<PublisherType, int>,
    totalConnections: int,
    updated: bool)
  {
    function GetBytesOut(t: PublisherType): nat {
      if t in bytesOut then bytesOut[t] else 0
    }

    function GetConnections(t: PublisherType): int {
      if t in connections then connections[t] else 0
    }

    /** UpdateDate: record that the block was touched. */
    function Touch(): (r: CounterBlock)
      ensures r.updated
      ensures r.(updated := updated) == this
    {
      this.(updated := true)
    }
  }

  const Zero := CounterBlock(0, map[], map[], 0, false)

  /** What an event adds to each counter. */
  function BytesInDelta(e: Event): nat {
    if e.BytesIn? then e.value else 0
  }

  function BytesOutDelta(e: Event, t: PublisherType): nat {
    if e.BytesOut? && e.publisher == t then e.value else 0
  }

  function ConnectionDelta(e: Event, t: PublisherType): int {
    if e.SessionConnected? && e.publisher == t then 1
    else if e.SessionDisconnected? && e.publisher == t then -1
    else 0
  }

  function TotalConnectionDelta(e: Event): int {
    if e.SessionConnected? then 1 else if e.SessionDisconnected? then -1 else 0
  }

  /** The effect of one event on one block: every counter moves by exactly
      that event's delta, and the block is touched. */
  function Apply(c: CounterBlock, e: Event): (r: CounterBlock)
    ensures r.bytesIn == c.bytesIn + BytesInDelta(e)
    ensures forall t :: r.GetBytesOut(t) == c.GetBytesOut(t) + BytesOutDelta(e, t)
    ensures forall t :: r.GetConnections(t) == c.GetConnections(t) + ConnectionDelta(e, t)
    ensures r.totalConnections == c.totalConnections + TotalConnectionDelta(e)
    ensures r.updated
  {
    match e
    case BytesIn(v) =>
      c.(bytesIn := c.bytesIn + v, updated := true)
    case BytesOut(t, v) =>
      c.(bytesOut := c.bytesOut[t := c.GetBytesOut(t) + v], updated := true)
    case SessionConnected(t) =>
      c.(connections := c.connections[t := c.GetConnections(t) + 1],
         totalConnections := c.totalConnections + 1, updated := true)
    case SessionDisconnected(t) =>
      c.(connections := c.connections[t := c.GetConnections(t) - 1],
         totalConnections := c.totalConnections - 1, updated := true)
  }

  /** A byte-out event changes only the bucket of its own publisher type:
      every other bucket, the connection counts and bytes-in keep their value. */
  lemma BytesOutTouchesOneBucket(c: CounterBlock, t: PublisherType, v: uint64, u: PublisherType)
    requires u != t
    ensures Apply(c, BytesOut(t, v)).GetBytesOut(u) == c.GetBytesOut(u)
    ensures Apply(c, BytesOut(t, v)).GetBytesOut(t) == c.GetBytesOut(t) + v
    ensures Apply(c, BytesOut(t, v)).(bytesOut := c.bytesOut, updated := c.updated) == c
  {
  }

  /** Events applied to one block commute: the final counters do not depend on
      the order in which two sessions' events arrive. */
  lemma ApplyCommutes(c: CounterBlock, e1: Event, e2: Event)
    ensures Apply(Apply(c, e1), e2) == Apply(Apply(c, e2), e1)
  {
    var a, b := Apply(Apply(c, e1), e2), Apply(Apply(c, e2), e1);
    assert a.bytesOut == b.bytesOut by {
      assert forall t :: t in a.bytesOut <==> t in b.bytesOut;
      forall t | t in a.bytesOut ensures a.bytesOut[t] == b.bytesOut[t] {
        assert a.GetBytesOut(t) == b.GetBytesOut(t);
      }
    }
    assert a.connections == b.connections by {
      assert forall t :: t in a.connections <==> t in b.connections;
      forall t | t in a.connections ensures a.connections[t] == b.connections[t] {
        assert a.GetConnections(t) == b.GetConnections(t);
      }
    }
  }
}
