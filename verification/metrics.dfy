/** The five gauges as one immutable record: publishing a packet and reading them back. */
module Metrics {
  import opened Wrappers
  import opened Units

  /** One reading from the positioning daemon, reduced to the fields the exporter uses. */
  datatype Packet = Packet(lon: real, lat: real, hspeed: real, alt: real, sats: int)

  /** The current values of the five gauges. */
  datatype Gauges = Gauges(longitude: real, latitude: real, speed: real, altitude: real, satcount: real)

  /** Every gauge starts at zero before anything is published. */
  const Unset: Gauges := Gauges(0.0, 0.0, 0.0, 0.0, 0.0)

  /** The gauge names, which are also the keys of a snapshot. */
  const GaugeNames: set<string> := {"longitude", "latitude", "speed", "altitude", "satcount"}

  /**
   * Sets every gauge from the packet; speed is converted to knots. Read back by name,
   * each gauge holds the packet's value, and nothing of the earlier state `g` remains.
   */
  function Publish(g: Gauges, p: Packet): (r: Gauges)
    ensures Snapshot(r)["longitude"] == p.lon
    ensures Snapshot(r)["latitude"] == p.lat
    ensures Snapshot(r)["speed"] == MpsToKnots(p.hspeed)
    ensures Snapshot(r)["altitude"] == p.alt
    ensures Snapshot(r)["satcount"] == p.sats as real
  {
    Gauges(p.lon, p.lat, MpsToKnots(p.hspeed), p.alt, p.sats as real)
  }

  /** Reads every gauge into a map keyed by gauge name. */
  function Snapshot(g: Gauges): (m: map<string, real>)
    ensures m.Keys == GaugeNames
  {
    map["longitude" := g.longitude, "latitude" := g.latitude, "speed" := g.speed,
        "altitude" := g.altitude, "satcount" := g.satcount]
  }

  /** Rebuilds the gauges from a map that has exactly the five gauge names as keys. */
  function Restore(m: map<string, real>): (r: Option<Gauges>)
    ensures r.Some? <==> m.Keys == GaugeNames
  {
    if m.Keys == GaugeNames then
      Some(Gauges(m["longitude"], m["latitude"], m["speed"], m["altitude"], m["satcount"]))
    else
      None
  }

  /** A snapshot loses nothing: the gauges can be rebuilt from it. */
  lemma SnapshotRestore(g: Gauges)
    ensures Restore(Snapshot(g)) == Some(g)
  {
  }

  /** Every map with the five gauge names as keys is the snapshot of the gauges rebuilt from it. */
  lemma RestoreSnapshot(m: map<string, real>, g: Gauges)
    requires Restore(m) == Some(g)
    ensures Snapshot(g) == m
  {
  }

  /** Two gauge states have the same snapshot exactly when they are equal. */
  lemma SnapshotInjective(a: Gauges, b: Gauges)
    ensures Snapshot(a) == Snapshot(b) <==> a == b
  {
  }

  /** Nothing of the earlier state survives a publish. */
  lemma PublishForgetsPrior(g1: Gauges, g2: Gauges, p: Packet)
    ensures Publish(g1, p) == Publish(g2, p)
  {
  }

  /** Publishing p1 and then p2 is the same as publishing p2 alone. */
  lemma PublishOverwrites(g: Gauges, p1: Packet, p2: Packet)
    ensures Publish(Publish(g, p1), p2) == Publish(g, p2)
  {
  }

  /** Distinct packets leave distinct gauge states: the five values determine the packet. */
  lemma PublishInjective(g: Gauges, p1: Packet, p2: Packet)
    ensures Publish(g, p1) == Publish(g, p2) <==> p1 == p2
  {
  }

  /** A worked cycle: 5 m/s is published as 9.7192 knots, the other values as delivered. */
  lemma PublishExample()
    ensures Snapshot(Publish(Unset, Packet(-0.1, 51.5, 5.0, 100.0, 8)))
            == map["longitude" := -0.1, "latitude" := 51.5, "speed" := 9.7192,
                   "altitude" := 100.0, "satcount" := 8.0]
  {
  }
}
