/** The exporter's poll loop, with the packets the daemon delivered as a parameter. */
module Exporter {
  import opened Metrics

  /**
   * Publishes each fetched packet in turn, starting from unset gauges. With `debug` on,
   * every cycle logs the snapshot taken after that cycle's publish.
   */
  method Run(fetched: seq<Packet>, debug: bool) returns (g: Gauges, log: seq<map<string, real>>)
    ensures |fetched| == 0 ==> g == Unset
    ensures |fetched| > 0 ==> g == Publish(Unset, fetched[|fetched| - 1])
    ensures |log| == if debug then |fetched| else 0
    ensures forall i :: 0 <= i < |log| ==> log[i] == Snapshot(Publish(Unset, fetched[i]))
  {
    g := Unset;
    log := [];
    var i := 0;
    while i < |fetched|
      invariant 0 <= i <= |fetched|
      invariant i == 0 ==> g == Unset
      invariant i > 0 ==> g == Publish(Unset, fetched[i - 1])
      invariant |log| == if debug then i else 0
      invariant forall k :: 0 <= k < |log| ==> log[k] == Snapshot(Publish(Unset, fetched[k]))
    {
      g := Publish(g, fetched[i]);
      if debug {
        log := log + [Snapshot(g)];
      }
      i := i + 1;
    }
  }
}
