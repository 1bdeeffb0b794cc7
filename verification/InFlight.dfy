/** Packets in flight: any of them may be the next to arrive or to get lost. */
module InFlight {
  function Without<T>(wire: seq<T>, i: nat): seq<T>
    requires i < |wire|
  {
    wire[..i] + wire[i + 1..]
  }

  /** A packet other than the one taken out is still there. */
  lemma StillInFlight<T>(wire: seq<T>, i: nat, p: T)
    requires i < |wire| && p in wire && p != wire[i]
    ensures p in Without(wire, i)
  {
    var k :| 0 <= k < |wire| && wire[k] == p;
    assert Without(wire, i)[if k < i then k else k - 1] == p;
  }
}
