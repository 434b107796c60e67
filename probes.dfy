/**
 * The ICMP pinger of go-ping, seen from the program: an opaque handle that keeps
 * probing its address once started, and a statistics snapshot read from it.
 */
module Probes {

  /** A started pinger; only the address it probes is visible to the program. */
  datatype Pinger = Pinger(address: string)

  /**
   * ping.Statistics as the program shows it. Packet loss and the round-trip times are a
   * float and durations computed inside go-ping; they are kept here as the text that
   * `%v` produces for them.
   */
  datatype Statistics = Statistics(
    packetsSent: nat,
    packetLoss: string,
    avgRtt: string,
    minRtt: string,
    maxRtt: string,
    stdDevRtt: string)

  /** One statistics snapshot per pinger, read in pinger order through `statsOf`. */
  function Snapshot(pingers: seq<Pinger>, statsOf: Pinger -> Statistics): (r: seq<Statistics>)
    ensures |r| == |pingers|
    ensures forall i :: 0 <= i < |pingers| ==> r[i] == statsOf(pingers[i])
  {
    if pingers == [] then [] else [statsOf(pingers[0])] + Snapshot(pingers[1..], statsOf)
  }
}
