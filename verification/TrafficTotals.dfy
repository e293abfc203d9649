/** How traffic rows add up: bytes are summed, connections keep their maximum. */
module TrafficTotals {
  import opened GoArithmetic

  datatype Totals = Totals(bytesIn: int, bytesOut: int, connections: int)

  const NOTHING := Totals(0, 0, 0)

  function Plus(a: Totals, b: Totals): Totals {
    Totals(a.bytesIn + b.bytesIn, a.bytesOut + b.bytesOut, Max(a.connections, b.connections))
  }

  lemma PlusNothing(t: Totals)
    requires t.connections >= 0
    ensures Plus(NOTHING, t) == t && Plus(t, NOTHING) == t
  {
  }

  lemma PlusShuffle(a: Totals, b: Totals, t: Totals)
    ensures Plus(Plus(a, b), t) == Plus(Plus(a, t), b) == Plus(a, Plus(b, t))
    ensures Plus(a, t).connections >= a.connections
    ensures Plus(Plus(a, b), t).connections >= Plus(a, b).connections
  {
  }
}
