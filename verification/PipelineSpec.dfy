/** What the packet pipeline of a PMD thread does to a batch of received packets, stated without its arrays. */
module PipelineSpec {
  import opened Base

  type FlowId = nat

  /** The answers to a key of the signature match cache, of the classifier and, for a key that the classifier missed, of
      the repeated lookup or the upcall.  Each is asked for at most once; all answers are possible. */
  datatype Key = Key(smc: Option<FlowId>, rule: Option<FlowId>, late: Late)

  datatype Late = Found(flow: FlowId) | UpcallOk | UpcallNoSpace | UpcallError

  /** What happens to a packet in the first stage. */
  datatype Dfc = TooShort | HwDropped | HwHit(flow: FlowId) | SimpleHit(flow: FlowId) | EmcHit(flow: FlowId) | DfcMiss

  datatype Packet = Packet(id: nat, dfc: Dfc, key: Key)

  /** Whether the signature match cache is used, and whether the upcall lock could not be taken. */
  datatype Mode = Mode(smc: bool, locked: bool)

  /** How a packet ends, each kind with its counter. */
  datatype Kind = Short | HwDrop | Hw | Simple | Emc | Smc | Masked | Upcalled | Lost

  datatype Batch = Batch(flow: FlowId, packets: seq<Packet>)

  datatype Stage = AfterDfc | AfterSmc

  function KindOf(p: Packet, mode: Mode): Kind {
    match p.dfc
    case TooShort => Short
    case HwDropped => HwDrop
    case HwHit(_) => Hw
    case SimpleHit(_) => Simple
    case EmcHit(_) => Emc
    case DfcMiss =>
      if mode.smc && p.key.smc.Some? then Smc
      else if p.key.rule.Some? then Masked
      else if mode.locked then Lost
      else match p.key.late
           case Found(_) => Masked
           case UpcallOk => Upcalled
           case UpcallNoSpace => Lost
           case UpcallError => Lost
  }

  function DfcFlow(p: Packet): Option<FlowId> {
    match p.dfc
    case HwHit(f) => Some(f)
    case SimpleHit(f) => Some(f)
    case EmcHit(f) => Some(f)
    case _ => None
  }

  function SmcFlow(p: Packet, mode: Mode): Option<FlowId> {
    if p.dfc.DfcMiss? && mode.smc then p.key.smc else DfcFlow(p)
  }

  /** The rule that the classifier stage ends with for a key. */
  function LateRule(key: Key, mode: Mode): Option<FlowId> {
    if key.rule.Some? then key.rule
    else if !mode.locked && key.late.Found? then Some(key.late.flow)
    else None
  }

  /** The flow in whose batch the packet ends, if it ends in one. */
  function FlowOf(p: Packet, mode: Mode): Option<FlowId> {
    if SmcFlow(p, mode).Some? then SmcFlow(p, mode)
    else if p.dfc.DfcMiss? then LateRule(p.key, mode)
    else None
  }

  predicate Pending(p: Packet, mode: Mode, s: Stage) {
    p.dfc.DfcMiss? && (s.AfterSmc? ==> SmcFlow(p, mode).None?)
  }

  function OfKind(ps: seq<Packet>, mode: Mode, k: Kind): seq<Packet> {
    if ps == [] then []
    else
      var p := ps[|ps| - 1];
      var r := OfKind(ps[..|ps| - 1], mode, k);
      if KindOf(p, mode) == k then r + [p] else r
  }

  /** The packet ends in the batch of flow `f`: that of its hit in the first stage; for a missed packet that of the
      signature match cache, if used and there is one; else the classifier's, if there is one; else that of the repeated
      lookup, if the lock was taken. */
  predicate EndsIn(p: Packet, mode: Mode, f: FlowId) {
    || p.dfc == HwHit(f) || p.dfc == SimpleHit(f) || p.dfc == EmcHit(f)
    || (p.dfc == DfcMiss && mode.smc && p.key.smc == Some(f))
    || (p.dfc == DfcMiss && (mode.smc ==> p.key.smc == None) &&
        (p.key.rule == Some(f) || (p.key.rule == None && !mode.locked && p.key.late == Found(f))))
  }

  lemma FlowOfIs(p: Packet, mode: Mode)
    ensures forall f: FlowId :: FlowOf(p, mode) == Some(f) <==> EndsIn(p, mode, f)
  {
  }

  /** The packets that end in the batch of flow `f`, in order of arrival. */
  function InFlow(ps: seq<Packet>, mode: Mode, f: FlowId): seq<Packet> {
    if ps == [] then []
    else
      var p := ps[|ps| - 1];
      var r := InFlow(ps[..|ps| - 1], mode, f);
      if EndsIn(p, mode, f) then r + [p] else r
  }

  /** The position of the batch of flow `f`, |batches| if there is none. */
  function IndexOf(batches: seq<Batch>, f: FlowId): (i: nat)
    ensures i <= |batches| && (i < |batches| ==> batches[i].flow == f)
    ensures forall j :: 0 <= j < i ==> batches[j].flow != f
  {
    if batches == [] then 0 else if batches[0].flow == f then 0 else 1 + IndexOf(batches[1..], f)
  }

  /** The batches after a packet is queued for flow `f`. */
  function Queued(batches: seq<Batch>, f: FlowId, p: Packet): seq<Batch> {
    var i := IndexOf(batches, f);
    if i < |batches| then batches[i := Batch(f, batches[i].packets + [p])] else batches + [Batch(f, [p])]
  }

  /** The batches of packets processed one after the other. */
  function QueueAll(ps: seq<Packet>, mode: Mode): seq<Batch> {
    if ps == [] then []
    else
      var p := ps[|ps| - 1];
      var r := QueueAll(ps[..|ps| - 1], mode);
      if FlowOf(p, mode).Some? then Queued(r, FlowOf(p, mode).value, p) else r
  }

  // ---------------------------------------------------------------- properties of the specification

  ghost predicate OneBatchEach(batches: seq<Batch>) {
    forall a, b :: 0 <= a < b < |batches| ==> batches[a].flow != batches[b].flow
  }

  /** Each batch holds the packets of its flow in order of arrival. */
  ghost predicate InOrder(batches: seq<Batch>, ps: seq<Packet>, mode: Mode) {
    forall b :: 0 <= b < |batches| ==> batches[b].packets == InFlow(ps, mode, batches[b].flow)
  }

  ghost predicate HasBatch(batches: seq<Batch>, f: FlowId) {
    IndexOf(batches, f) < |batches|
  }

  /** Flows have one batch each, with all packets that end in that flow, in order of arrival; no packet of a flow is
      left out, and there are at most as many batches as packets. */
  lemma {:induction false} BatchesInOrder(ps: seq<Packet>, mode: Mode)
    ensures OneBatchEach(QueueAll(ps, mode)) && InOrder(QueueAll(ps, mode), ps, mode)
    ensures forall f :: HasBatch(QueueAll(ps, mode), f) <==> InFlow(ps, mode, f) != []
    ensures |QueueAll(ps, mode)| <= |ps|
  {
    if ps != [] {
      var n := |ps| - 1;
      BatchesInOrder(ps[..n], mode);
      FlowOfIs(ps[n], mode);
      hide FlowOf;
      hide EndsIn;
      hide IndexOf;
      if FlowOf(ps[n], mode).Some? {
        QueuedInOrder(QueueAll(ps[..n], mode), ps, mode);
      }
    }
  }

  lemma QueuedInOrder(batches: seq<Batch>, ps: seq<Packet>, mode: Mode)
    requires ps != [] && FlowOf(ps[|ps| - 1], mode).Some?
    requires OneBatchEach(batches) && InOrder(batches, ps[..|ps| - 1], mode)
    requires forall f :: HasBatch(batches, f) <==> InFlow(ps[..|ps| - 1], mode, f) != []
    ensures var after := Queued(batches, FlowOf(ps[|ps| - 1], mode).value, ps[|ps| - 1]);
            && OneBatchEach(after) && InOrder(after, ps, mode)
            && forall f :: HasBatch(after, f) <==> InFlow(ps, mode, f) != []
  {
    var n := |ps| - 1;
    var p, f := ps[n], FlowOf(ps[n], mode).value;
    var after := Queued(batches, f, p);
    FlowOfIs(p, mode);
    hide FlowOf;
    hide EndsIn;
    hide IndexOf;
    var i := IndexOf(batches, f);
    assert i == |batches| ==> !HasBatch(batches, f);
    forall g
      ensures HasBatch(after, g) <==> HasBatch(batches, g) || g == f
    {
      var b := IndexOf(batches, g);
      if b < |batches| {
        assert after[b].flow == g;
      } else if g == f {
        assert after[i].flow == g;
      }
    }
    hide HasBatch;
    assert OneBatchEach(after);
    assert InOrder(after, ps, mode);
  }

  function SumSizes(batches: seq<Batch>): nat {
    if batches == [] then 0 else SumSizes(batches[..|batches| - 1]) + |batches[|batches| - 1].packets|
  }

  lemma {:induction false} SumSizesSet(batches: seq<Batch>, i: nat, b: Batch)
    requires i < |batches| && |b.packets| == |batches[i].packets| + 1
    ensures SumSizes(batches[i := b]) == SumSizes(batches) + 1
  {
    var n := |batches| - 1;
    if i < n {
      SumSizesSet(batches[..n], i, b);
      assert batches[i := b][..n] == batches[..n][i := b];
    } else {
      assert batches[i := b][..n] == batches[..n];
    }
  }

  lemma QueuedSize(batches: seq<Batch>, f: FlowId, p: Packet)
    ensures SumSizes(Queued(batches, f, p)) == SumSizes(batches) + 1
  {
    var i := IndexOf(batches, f);
    if i < |batches| {
      SumSizesSet(batches, i, Batch(f, batches[i].packets + [p]));
    } else {
      assert (batches + [Batch(f, [p])])[..|batches|] == batches;
    }
  }

  /** Every received packet is consumed exactly once: it is dropped, upcalled, lost or put in one flow batch. */
  lemma {:induction false} EachPacketOnce(ps: seq<Packet>, mode: Mode)
    ensures |ps| == |OfKind(ps, mode, Short)| + |OfKind(ps, mode, HwDrop)| + |OfKind(ps, mode, Upcalled)| +
                    |OfKind(ps, mode, Lost)| + SumSizes(QueueAll(ps, mode))
    ensures SumSizes(QueueAll(ps, mode)) ==
            |OfKind(ps, mode, Hw)| + |OfKind(ps, mode, Simple)| + |OfKind(ps, mode, Emc)| +
            |OfKind(ps, mode, Smc)| + |OfKind(ps, mode, Masked)|
  {
    if ps != [] {
      var n := |ps| - 1;
      EachPacketOnce(ps[..n], mode);
      FlowOrNot(ps[n], mode);
      hide KindOf;
      hide FlowOf;
      hide Queued;
      if FlowOf(ps[n], mode).Some? {
        QueuedSize(QueueAll(ps[..n], mode), FlowOf(ps[n], mode).value, ps[n]);
      }
      hide SumSizes;
    }
  }

  lemma FlowOrNot(p: Packet, mode: Mode)
    ensures FlowOf(p, mode).Some? <==> KindOf(p, mode) in {Hw, Simple, Emc, Smc, Masked}
  {
  }

  // ---------------------------------------------------------------- packets still to be classified

  /** The packets still to be classified after a stage. */
  function Remaining(ps: seq<Packet>, mode: Mode, s: Stage): seq<Packet> {
    if ps == [] then []
    else
      var p := ps[|ps| - 1];
      var r := Remaining(ps[..|ps| - 1], mode, s);
      if Pending(p, mode, s) then r + [p] else r
  }

  /** The positions of these packets. */
  function Pos(ps: seq<Packet>, mode: Mode, s: Stage): (r: seq<nat>)
    ensures forall j :: 0 <= j < |r| ==> r[j] < |ps|
  {
    if ps == [] then []
    else
      var r := Pos(ps[..|ps| - 1], mode, s);
      if Pending(ps[|ps| - 1], mode, s) then r + [|ps| - 1] else r
  }

  /** Packets that get a place in the flow map or a batch. */
  function Undropped(ps: seq<Packet>): seq<Packet> {
    if ps == [] then []
    else
      var p := ps[|ps| - 1];
      var r := Undropped(ps[..|ps| - 1]);
      if p.dfc.TooShort? || p.dfc.HwDropped? then r else r + [p]
  }

  lemma {:induction false} PosAre(ps: seq<Packet>, mode: Mode, s: Stage)
    ensures |Pos(ps, mode, s)| == |Remaining(ps, mode, s)| <= |ps|
    ensures forall j :: 0 <= j < |Pos(ps, mode, s)| ==>
              Remaining(ps, mode, s)[j] == ps[Pos(ps, mode, s)[j]] && Pending(ps[Pos(ps, mode, s)[j]], mode, s)
    ensures forall a, b :: 0 <= a < b < |Pos(ps, mode, s)| ==> Pos(ps, mode, s)[a] < Pos(ps, mode, s)[b]
  {
    if ps != [] {
      PosAre(ps[..|ps| - 1], mode, s);
      hide Pending;
    }
  }

  lemma {:induction false} PosFinds(ps: seq<Packet>, mode: Mode, s: Stage, k: nat) returns (j: nat)
    requires k < |ps| && Pending(ps[k], mode, s)
    ensures j < |Pos(ps, mode, s)| && Pos(ps, mode, s)[j] == k
  {
    hide Pending;
    var n := |ps| - 1;
    if k < n {
      j := PosFinds(ps[..n], mode, s, k);
    } else {
      j := |Pos(ps[..n], mode, s)|;
    }
  }

  lemma {:induction false} RemainingOfUndropped(ps: seq<Packet>, mode: Mode, s: Stage)
    ensures Remaining(Undropped(ps), mode, s) == Remaining(ps, mode, s)
  {
    if ps != [] {
      var n := |ps| - 1;
      RemainingOfUndropped(ps[..n], mode, s);
      if !(ps[n].dfc.TooShort? || ps[n].dfc.HwDropped?) {
        assert Undropped(ps)[..|Undropped(ps)| - 1] == Undropped(ps[..n]);
      }
    }
  }

  lemma {:induction false} RemainingConcat(a: seq<Packet>, b: seq<Packet>, mode: Mode, s: Stage)
    ensures Remaining(a + b, mode, s) == Remaining(a, mode, s) + Remaining(b, mode, s)
  {
    if b == [] {
      assert a + b == a;
    } else {
      var n := |b| - 1;
      assert (a + b)[..|a| + n] == a + b[..n];
      RemainingConcat(a, b[..n], mode, s);
      hide Pending;
    }
  }

  lemma {:induction false} QueueUndropped(a: seq<Packet>, b: seq<Packet>, mode: Mode)
    ensures QueueAll(a + Undropped(b), mode) == QueueAll(a + b, mode)
    ensures |Undropped(b)| <= |b|
  {
    if b == [] {
      assert Undropped(b) == b;
    } else {
      hide *;
      var c, p := b[..|b| - 1], b[|b| - 1];
      QueueUndropped(a, c, mode);
      UndroppedNext(c, p, mode);
      QueueNext(a + c, p, mode);
      QueueNext(a + Undropped(c), p, mode);
      assert b == c + [p];
      SnocAssoc(a, c, p);
      SnocAssoc(a, Undropped(c), p);
    }
  }

  lemma SnocAssoc(a: seq<Packet>, b: seq<Packet>, p: Packet)
    ensures a + (b + [p]) == a + b + [p]
  {
  }

  lemma UndroppedNext(ps: seq<Packet>, p: Packet, mode: Mode)
    ensures Undropped(ps + [p]) == Undropped(ps) + [p] ||
            (Undropped(ps + [p]) == Undropped(ps) && FlowOf(p, mode).None?)
  {
    assert (ps + [p])[..|ps|] == ps;
  }

  lemma QueueNext(ps: seq<Packet>, p: Packet, mode: Mode)
    ensures QueueAll(ps + [p], mode) ==
            if FlowOf(p, mode).Some? then Queued(QueueAll(ps, mode), FlowOf(p, mode).value, p) else QueueAll(ps, mode)
  {
    assert (ps + [p])[..|ps|] == ps;
  }

  predicate LateKind(k: Kind) { k.Masked? || k.Upcalled? || k.Lost? }

  /** The kinds decided in the last stage are decided among the packets remaining there. */
  lemma {:induction false} LateKinds(ps: seq<Packet>, mode: Mode, k: Kind)
    requires LateKind(k)
    ensures OfKind(Remaining(ps, mode, AfterSmc), mode, k) == OfKind(ps, mode, k)
  {
    if ps != [] {
      var n := |ps| - 1;
      LateKinds(ps[..n], mode, k);
      assert !Pending(ps[n], mode, AfterSmc) ==> KindOf(ps[n], mode) != k;
      var r := Remaining(ps[..n], mode, AfterSmc);
      assert (r + [ps[n]])[..|r|] == r;
      hide KindOf;
      hide Pending;
    }
  }

  lemma {:induction false} SmcKinds(ps: seq<Packet>, mode: Mode)
    ensures OfKind(Remaining(ps, mode, AfterDfc), mode, Smc) == OfKind(ps, mode, Smc)
    ensures Remaining(Remaining(ps, mode, AfterDfc), mode, AfterSmc) == Remaining(ps, mode, AfterSmc)
    ensures !mode.smc ==> Remaining(ps, mode, AfterDfc) == Remaining(ps, mode, AfterSmc) && OfKind(ps, mode, Smc) == []
  {
    if ps != [] {
      var n := |ps| - 1;
      SmcKinds(ps[..n], mode);
      assert !Pending(ps[n], mode, AfterDfc) ==> KindOf(ps[n], mode) != Smc && !Pending(ps[n], mode, AfterSmc);
      assert !mode.smc ==>
          KindOf(ps[n], mode) != Smc && (Pending(ps[n], mode, AfterDfc) <==> Pending(ps[n], mode, AfterSmc));
      var r := Remaining(ps[..n], mode, AfterDfc);
      assert (r + [ps[n]])[..|r|] == r;
      hide KindOf;
      hide Pending;
    }
  }
}
