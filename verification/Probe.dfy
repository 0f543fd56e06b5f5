/** Choice of the best path by probes: each probe carries its send time over one path; the receiver compares the latest
    delays of all paths. */
module Probe {
  import opened Base

  const PATH_NB: nat := 4
  const DST_PORT_PATH_1: nat := 5678
  const NOT_PROBED: nat := 0xFFFF_FFFF
  const SECOND: nat := 1_000_000_000
  const U64: nat := U64_MAX + 1

  type u8 = x: nat | x <= 0xFF
  type u16 = x: nat | x <= 0xFFFF

  /** The UDP port that encode_probe_pkt() sends to. */
  function PortOf(pathId: u8): u16 {
    (DST_PORT_PATH_1 - 1 + pathId) % 0x1_0000
  }

  /** The path that hopa_cp_probe_pkt_progress() takes a probe to that port to have come by, from 0. */
  function PathOf(port: u16): u8 {
    (port - DST_PORT_PATH_1) % 0x100
  }

  /** A probe sent with path number p, from 1, arrives as path p - 1, and no other path number gives the same. */
  lemma PathRoundTrip(p: u8)
    ensures PathOf(PortOf(p)) == if p == 0 then 0xFF else p - 1
    ensures forall q: u8 :: PathOf(PortOf(q)) == PathOf(PortOf(p)) ==> q == p
  {
    forall q: u8
      ensures PathOf(PortOf(q)) == if q == 0 then 0xFF else q - 1
    {
      assert PortOf(q) == DST_PORT_PATH_1 - 1 + q;
    }
  }

  /** A repath packet is to go out on the best path, but `optPathId` counts from 0 and is used as a path number from 1:
      it never does. */
  lemma RepathMissesBestPath(optPathId: u8)
    ensures PathOf(PortOf(optPathId)) != optPathId
    ensures optPathId < 0xFF ==> PathOf(PortOf(optPathId + 1)) == optPathId
  {
    PathRoundTrip(optPathId);
    if optPathId < 0xFF {
      PathRoundTrip(optPathId + 1);
    }
  }

  /** lcore_probe(): one round of probes covers every path once. */
  method ProbeRound() returns (ports: seq<u16>)
    ensures |ports| == PATH_NB && forall i :: 0 <= i < PATH_NB ==> PathOf(ports[i]) == i
    ensures ports == [5678, 5679, 5680, 5681]
  {
    ports := [];
    for i := 0 to PATH_NB
      invariant |ports| == i && forall j :: 0 <= j < i ==> PathOf(ports[j]) == j && ports[j] == 5678 + j
    {
      PathRoundTrip(i + 1);
      ports := ports + [PortOf(i + 1)];
    }
  }

  /** `p` is the lowest-numbered path of least delay. */
  predicate IsBest(delays: seq<nat>, p: nat) {
    p < |delays| && forall i :: 0 <= i < |delays| ==> delays[p] <= delays[i] && (i < p ==> delays[p] < delays[i])
  }

  /** What is stored for a probe: the difference of the clocks and a second, in 64 bits. */
  function Measured(senderTs: nat, receiverTs: nat): nat {
    (receiverTs - senderTs + SECOND) % U64
  }

  class HopaCp {
    const delays: array<nat>
    var optPathId: nat

    constructor ()
      ensures fresh(delays) && delays[..] == NeverProbed() && optPathId == 0
    {
      delays := new nat[PATH_NB](_ => NOT_PROBED);
      optPathId := 0;
    }

    /** get_min_delay_path_id(). */
    method MinDelayPathId(length: nat) returns (pathId: nat)
      requires 0 < length <= delays.Length && length <= 0x100
      ensures IsBest(delays[..length], pathId)
    {
      pathId := 0;
      for i := 1 to length
        invariant pathId < i && IsBest(delays[..i], pathId)
      {
        if delays[i] < delays[pathId] {
          pathId := i;
        }
      }
    }

    /** hopa_cp_probe_pkt_progress() for a probe to the port of one of the paths. */
    method ProbeArrives(port: u16, senderTs: nat, receiverTs: nat)
      requires delays.Length == PATH_NB && PathOf(port) < PATH_NB
      modifies this, delays
      ensures delays[..] == old(delays[..])[PathOf(port) := Measured(senderTs, receiverTs)]
      ensures IsBest(delays[..], optPathId)
    {
      delays[PathOf(port)] := Measured(senderTs, receiverTs);
      optPathId := MinDelayPathId(PATH_NB);
      assert delays[..PATH_NB] == delays[..];
    }
  }

  // ---------------------------------------------------------------- runs

  /** A probe that was `delay` on its way over a path.  The receiver's clock is ahead of the sender's by an offset. */
  datatype Delivery = Delivery(path: nat, sent: nat, delay: nat)

  function NeverProbed(): seq<nat> { [NOT_PROBED, NOT_PROBED, NOT_PROBED, NOT_PROBED] }

  predicate AllPaths(ds: seq<Delivery>) {
    forall d <- ds :: d.path < PATH_NB
  }

  /** The receiver's clock is not negative. */
  predicate ClockOk(ds: seq<Delivery>, offset: int) {
    forall d <- ds :: d.sent + d.delay + offset >= 0
  }

  /** The stored delays after the deliveries. */
  function DelaysAfter(ds: seq<Delivery>, offset: int): (r: seq<nat>)
    requires AllPaths(ds) && ClockOk(ds, offset)
    ensures |r| == PATH_NB
  {
    if ds == [] then NeverProbed()
    else
      var d := ds[|ds| - 1];
      DelaysAfter(ds[..|ds| - 1], offset)[d.path := Measured(d.sent, d.sent + d.delay + offset)]
  }

  /** The latest true delay of a path. */
  function Latest(ds: seq<Delivery>, path: nat): Option<nat> {
    if ds == [] then None
    else if ds[|ds| - 1].path == path then Some(ds[|ds| - 1].delay)
    else Latest(ds[..|ds| - 1], path)
  }

  predicate AllProbed(ds: seq<Delivery>) {
    forall p :: 0 <= p < PATH_NB ==> Latest(ds, p).Some?
  }

  function LatestDelays(ds: seq<Delivery>): seq<nat>
    requires AllProbed(ds)
  {
    [Latest(ds, 0).value, Latest(ds, 1).value, Latest(ds, 2).value, Latest(ds, 3).value]
  }

  function Stored(delay: nat, offset: int): nat { (delay + offset + SECOND) % U64 }

  /** The offset keeps the delay within 64 bits. */
  predicate InRange(delay: nat, offset: int) {
    0 <= SECOND + offset + delay < U64
  }

  lemma {:induction false} StoredLatest(ds: seq<Delivery>, offset: int, p: nat)
    requires AllPaths(ds) && ClockOk(ds, offset) && p < PATH_NB
    ensures DelaysAfter(ds, offset)[p] == match Latest(ds, p) case Some(d) => Stored(d, offset) case None => NOT_PROBED
  {
    if ds != [] {
      StoredLatest(ds[..|ds| - 1], offset, p);
    }
  }

  /** Once all paths have been probed, the path chosen is the lowest-numbered one of least latest true delay, whatever
      the deliveries and the constant offset of the clocks. */
  lemma BestPath(ds: seq<Delivery>, offset: int, opt: nat)
    requires AllPaths(ds) && ClockOk(ds, offset) && AllProbed(ds)
    requires forall p :: 0 <= p < PATH_NB ==> InRange(Latest(ds, p).value, offset)
    ensures IsBest(DelaysAfter(ds, offset), opt) <==> IsBest(LatestDelays(ds), opt)
  {
    forall p | 0 <= p < PATH_NB
      ensures DelaysAfter(ds, offset)[p] == SECOND + offset + LatestDelays(ds)[p]
    {
      StoredLatest(ds, offset, p);
      StoredInRange(Latest(ds, p).value, offset);
    }
    ShiftKeepsBest(DelaysAfter(ds, offset), LatestDelays(ds), SECOND + offset, opt);
  }

  /** The receiver from its start through any run of probes, each to the port of its path: it stores the delays that the
      run defines, and once all paths have been probed it has chosen the best path by their latest true delays. */
  method ReceiveProbes(ds: seq<Delivery>, offset: int) returns (cp: HopaCp)
    requires AllPaths(ds) && ClockOk(ds, offset)
    ensures fresh(cp) && cp.delays[..] == DelaysAfter(ds, offset) && IsBest(cp.delays[..], cp.optPathId)
    ensures AllProbed(ds) && (forall p :: 0 <= p < PATH_NB ==> InRange(Latest(ds, p).value, offset)) ==>
              IsBest(LatestDelays(ds), cp.optPathId)
  {
    cp := new HopaCp();
    for i := 0 to |ds|
      invariant fresh(cp) && fresh(cp.delays)
      invariant cp.delays[..] == DelaysAfter(ds[..i], offset) && IsBest(cp.delays[..], cp.optPathId)
    {
      var d := ds[i];
      PathRoundTrip(d.path + 1);
      cp.ProbeArrives(PortOf(d.path + 1), d.sent, d.sent + d.delay + offset);
      assert ds[..i + 1][..i] == ds[..i];
    }
    assert ds[..|ds|] == ds;
    if AllProbed(ds) && forall p :: 0 <= p < PATH_NB ==> InRange(Latest(ds, p).value, offset) {
      BestPath(ds, offset, cp.optPathId);
    }
  }

  lemma StoredInRange(delay: nat, offset: int)
    requires InRange(delay, offset)
    ensures Stored(delay, offset) == SECOND + offset + delay
  {
  }

  lemma ShiftKeepsBest(a: seq<nat>, b: seq<nat>, c: int, p: nat)
    requires |a| == |b| && forall i :: 0 <= i < |a| ==> a[i] == c + b[i]
    ensures IsBest(a, p) <==> IsBest(b, p)
  {
  }

  lemma BestIsOne(delays: seq<nat>, p: nat, q: nat)
    requires IsBest(delays, p) && IsBest(delays, q)
    ensures p == q
  {
    assert delays[p] <= delays[q] && delays[q] <= delays[p];
  }

  /** Two delays less than 2^64 apart are stored in their order exactly if both wrap around equally often. */
  lemma OrderKeptIff(a: nat, b: nat, offset: int)
    requires a < b < a + U64
    ensures Stored(a, offset) < Stored(b, offset) <==> (a + offset + SECOND) / U64 == (b + offset + SECOND) / U64
  {
  }

  /** The best of the paths probed so far. */
  predicate IsBestProbed(ds: seq<Delivery>, offset: int, p: nat)
    requires AllPaths(ds) && ClockOk(ds, offset)
  {
    && p < PATH_NB && Latest(ds, p).Some?
    && forall i :: 0 <= i < PATH_NB && Latest(ds, i).Some? ==>
         DelaysAfter(ds, offset)[p] <= DelaysAfter(ds, offset)[i] &&
         (i < p ==> DelaysAfter(ds, offset)[p] < DelaysAfter(ds, offset)[i])
  }

  /** The value of path `p` comes before the initial value of every unprobed path. */
  predicate BeatsUnprobed(ds: seq<Delivery>, value: nat, p: nat) {
    forall i :: 0 <= i < PATH_NB && Latest(ds, i).None? ==> value < NOT_PROBED || (value == NOT_PROBED && p < i)
  }

  /** Before all paths have been probed, the best of those probed is chosen exactly if its stored delay beats the
      initial value of every other: an unprobed path has that for its delay. */
  lemma PartlyProbedIff(ds: seq<Delivery>, offset: int, opt: nat, best: nat)
    requires AllPaths(ds) && ClockOk(ds, offset)
    requires IsBest(DelaysAfter(ds, offset), opt) && IsBestProbed(ds, offset, best)
    ensures opt == best <==> BeatsUnprobed(ds, DelaysAfter(ds, offset)[best], best)
  {
    var stored := DelaysAfter(ds, offset);
    forall p | 0 <= p < PATH_NB
      ensures Latest(ds, p).None? ==> stored[p] == NOT_PROBED
    {
      StoredLatest(ds, offset, p);
    }
    hide DelaysAfter;
    hide Latest;
    if BeatsUnprobed(ds, stored[best], best) {
      forall i | 0 <= i < PATH_NB
        ensures stored[best] <= stored[i] && (i < best ==> stored[best] < stored[i])
      {
        assert Latest(ds, i).None? || Latest(ds, i).Some?;
      }
      BestIsOne(stored, opt, best);
    }
  }

  /** A single path that has been probed is chosen exactly if its stored delay is below 2^32 - 1, or is that and the
      path is path 0. */
  lemma OnlyProbedChosen(ds: seq<Delivery>, offset: int, opt: nat, p: nat)
    requires AllPaths(ds) && ClockOk(ds, offset) && IsBest(DelaysAfter(ds, offset), opt)
    requires p < PATH_NB && forall i :: 0 <= i < PATH_NB ==> (Latest(ds, i).Some? <==> i == p)
    ensures opt == p <==>
            DelaysAfter(ds, offset)[p] < 0xFFFF_FFFF || (DelaysAfter(ds, offset)[p] == 0xFFFF_FFFF && p == 0)
  {
    PartlyProbedIff(ds, offset, opt, p);
    hide DelaysAfter;
    assert Latest(ds, if p == 0 then 1 else 0).None?;
  }

  /** So a path never probed is chosen over one of a delay of 3.3 seconds. */
  lemma UnprobedChosen()
    ensures var ds := [Delivery(0, 0, 3_300_000_000)];
            AllPaths(ds) && ClockOk(ds, 0) && IsBest(DelaysAfter(ds, 0), 1) && Latest(ds, 1).None?
  {
    var ds := [Delivery(0, 0, 3_300_000_000)];
    assert ds[..0] == [];
    assert DelaysAfter(ds, 0) == [4_300_000_000, NOT_PROBED, NOT_PROBED, NOT_PROBED];
  }
}
