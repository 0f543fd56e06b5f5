/** The packet pipeline of a PMD thread, dp_netdev_input__() and the stages it calls, on its arrays. */
module Pipeline {
  import opened Base
  import opened PipelineSpec

  /** An entry of the flow map. */
  datatype Entry = Entry(flow: Option<FlowId>, packet: Packet)

  predicate DfcEntry(e: Entry, p: Packet) {
    e.flow == DfcFlow(p) && (e.flow.Some? ==> e.packet == p)
  }

  predicate SmcEntry(e: Entry, p: Packet, mode: Mode) {
    e.flow == SmcFlow(p, mode) && (e.flow.Some? ==> e.packet == p)
  }

  predicate FinalEntry(e: Entry, p: Packet, mode: Mode) {
    e.flow == FlowOf(p, mode) && (e.flow.Some? ==> e.packet == p)
  }

  /** The batch pointers of the flows are those of the batches. */
  ghost predicate PointersOk(batchOf: map<FlowId, nat>, batches: seq<Batch>) {
    && (forall f :: f in batchOf <==> HasBatch(batches, f))
    && (forall f <- batchOf :: batchOf[f] == IndexOf(batches, f))
  }

  /** One call of dp_netdev_input__() with the state it works on.  `batchOf` are the flows whose batch pointer is
      set. */
  class Input {
    const packets: array<Packet>
    const keys: array<Key>
    const missedKeys: array<nat>
    const flowMap: array<Entry>
    const indexMap: array<nat>
    var batchOf: map<FlowId, nat>
    var batches: seq<Batch>
    var executed: seq<Batch>
    var short: seq<Packet>
    var hwDropped: seq<Packet>
    var upcalled: seq<Packet>
    var lost: seq<Packet>
    var stats: map<Kind, nat>

    predicate Sized(n: nat) {
      && packets.Length == keys.Length == missedKeys.Length == flowMap.Length == indexMap.Length == n
      && missedKeys != indexMap
    }

    constructor (received: seq<Packet>, key: Key, entry: Entry)
      ensures Sized(|received|) && packets[..] == received && batchOf == map[] && batches == [] && executed == []
      ensures fresh(packets) && fresh(keys) && fresh(missedKeys) && fresh(flowMap) && fresh(indexMap)
      ensures short == [] && hwDropped == [] && upcalled == [] && lost == [] && stats == map[]
    {
      packets := new Packet[|received|](i requires 0 <= i < |received| => received[i]);
      keys := new Key[|received|](_ => key);
      missedKeys := new nat[|received|](_ => 0);
      flowMap := new Entry[|received|](_ => entry);
      indexMap := new nat[|received|](_ => 0);
      batchOf, batches, executed := map[], [], [];
      short, hwDropped, upcalled, lost, stats := [], [], [], [], map[];
    }

    /** dp_netdev_queue_batches(). */
    method QueueBatch(p: Packet, f: FlowId)
      requires PointersOk(batchOf, batches)
      modifies this`batchOf, this`batches
      ensures PointersOk(batchOf, batches) && batches == Queued(old(batches), f, p)
    {
      hide IndexOf;
      QueuedPointers(batchOf, batches, f, p);
      if f !in batchOf {
        batchOf := batchOf[f := |batches|];
        batches := batches + [Batch(f, [p])];
      } else {
        var i := batchOf[f];
        batches := batches[i := Batch(f, batches[i].packets + [p])];
      }
    }

    /** packet_enqueue_to_flow_map(). */
    method EnqueueToFlowMap(p: Packet, flow: Option<FlowId>, index: nat)
      requires index < flowMap.Length
      modifies flowMap
      ensures flowMap[..] == old(flowMap[..])[index := Entry(flow, p)]
    {
      flowMap[index] := Entry(flow, p);
    }

    /** dfc_processing_enqueue_classified_packet(). */
    method EnqueueClassified(p: Packet, flow: FlowId, batchEnable: bool, mapCnt: nat) returns (mapCnt': nat)
      requires PointersOk(batchOf, batches) && (!batchEnable ==> mapCnt < flowMap.Length)
      modifies this`batchOf, this`batches, flowMap
      ensures PointersOk(batchOf, batches)
      ensures batches == if batchEnable then Queued(old(batches), flow, p) else old(batches)
      ensures flowMap[..] == if batchEnable then old(flowMap[..]) else old(flowMap[..])[mapCnt := Entry(Some(flow), p)]
      ensures mapCnt' == if batchEnable then mapCnt else mapCnt + 1
    {
      mapCnt' := mapCnt;
      if batchEnable {
        QueueBatch(p, flow);
      } else {
        EnqueueToFlowMap(p, Some(flow), mapCnt);
        mapCnt' := mapCnt + 1;
      }
    }

    /** A packet missed by the first stage moves up in the batch and gets an empty place in the flow map; its key is the
        next one. */
    method MissPacket(p: Packet, cnt: nat, place: nat)
      requires Sized(packets.Length) && cnt <= place < packets.Length
      modifies packets, keys, missedKeys, flowMap, indexMap
      ensures packets[..] == old(packets[..])[cnt := p] && indexMap[..] == old(indexMap[..])[cnt := place]
      ensures keys[..] == old(keys[..])[cnt := p.key] && missedKeys[..] == old(missedKeys[..])[cnt := cnt]
      ensures flowMap[..] == old(flowMap[..])[place := old(flowMap[..])[place].(flow := None)]
    {
      packets[cnt] := p;
      indexMap[cnt] := place;
      flowMap[place] := flowMap[place].(flow := None);
      missedKeys[cnt] := cnt;
      keys[cnt] := p.key;
    }

    /** The counters are bumped once a stage. */
    method UpdateCounter(k: Kind, n: nat)
      modifies this`stats
      ensures stats == Bump(old(stats), k, n)
    {
      stats := Bump(stats, k, n);
    }

    /** dfc_processing() up to the lookup in the signature match cache.  The packets before `m` were batched at once;
        the others, from the first miss on, except the dropped ones, have got the places `slots` in the flow map. */
    method DfcProcessing(mode: Mode) returns (nFlows: nat, cnt: nat, ghost m: nat, ghost slots: seq<Packet>)
      requires Sized(packets.Length) && batchOf == map[] && batches == [] && short == [] && hwDropped == []
      modifies this, packets, keys, missedKeys, flowMap, indexMap
      ensures nFlows == |slots| && DfcInv(old(packets[..]), packets.Length, m, mode, slots, batches, flowMap[..],
                                          indexMap[..], packets[..], keys[..], missedKeys[..], cnt)
      ensures PointersOk(batchOf, batches) && |slots| + m <= packets.Length
      ensures forall i :: 0 <= i < m ==> !old(packets[i]).dfc.DfcMiss?
      ensures m < packets.Length ==> old(packets[..])[m].dfc.DfcMiss?
      ensures short == OfKind(old(packets[..]), mode, Short) && hwDropped == OfKind(old(packets[..]), mode, HwDrop)
      ensures stats == DfcStats(old(stats), old(packets[..]), mode)
      ensures executed == old(executed) && upcalled == old(upcalled) && lost == old(lost)
    {
      hide PointersOk;
      hide Queued;
      hide DfcInv;
      hide DfcCounts;
      hide DfcStats;
      hide OfKind;
      hide Bump;
      ghost var received := packets[..];
      var n := packets.Length;
      var batchEnable := true;
      var nHw, nSimple, nEmc := 0, 0, 0;
      nFlows, cnt, m, slots := 0, 0, 0, [];
      NoPointers();
      DfcStart(received, mode, flowMap[..], indexMap[..], keys[..], missedKeys[..]);
      for i := 0 to n
        invariant forall k :: i <= k < n ==> packets[k] == received[k]
        invariant DfcInv(received, i, m, mode, slots, batches, flowMap[..], indexMap[..], packets[..], keys[..],
                         missedKeys[..], cnt)
        invariant nFlows == |slots| && cnt <= nFlows && nFlows + m <= i && (batchEnable ==> m == i)
        invariant forall k :: 0 <= k < m ==> !received[k].dfc.DfcMiss?
        invariant !batchEnable ==> m < n && received[m].dfc.DfcMiss?
        invariant PointersOk(batchOf, batches)
        invariant DfcCounts(received, i, mode, short, hwDropped, nHw, nSimple, nEmc)
        invariant executed == old(executed) && upcalled == old(upcalled) && lost == old(lost) && stats == old(stats)
      {
        var p := packets[i];
        ghost var packets0, flowMap0, indexMap0, keys0, missed0 :=
          packets[..], flowMap[..], indexMap[..], keys[..], missedKeys[..];
        DfcCounted(received, i, mode, short, hwDropped, nHw, nSimple, nEmc);
        var flow: Option<FlowId> := None;
        match p.dfc {
          case TooShort => short := short + [p];
          case HwDropped => hwDropped := hwDropped + [p];
          case HwHit(f) => nHw, flow := nHw + 1, Some(f);
          case SimpleHit(f) => nSimple, flow := nSimple + 1, Some(f);
          case EmcHit(f) => nEmc, flow := nEmc + 1, Some(f);
          case DfcMiss =>
        }
        if p.dfc.DfcMiss? {
          DfcMissStep(received, i, m, mode, slots, batches, flowMap0, indexMap0, packets0, keys0, missed0, cnt);
          MissPacket(p, cnt, nFlows);
          batchEnable := false;
          cnt, nFlows, slots := cnt + 1, nFlows + 1, slots + [p];
        } else if flow.None? {
          DfcDropStep(received, i, m, mode, slots, batches, flowMap0, indexMap0, packets0, keys0, missed0, cnt);
          if batchEnable {
            m := i + 1;
          }
        } else {
          if batchEnable {
            DfcBatchStep(received, i, mode, slots, batches, flowMap0, indexMap0, packets0, keys0, missed0, cnt);
            m := i + 1;
          } else {
            DfcHitStep(received, i, m, mode, slots, batches, flowMap0, indexMap0, packets0, keys0, missed0, cnt);
            slots := slots + [p];
          }
          nFlows := EnqueueClassified(p, flow.value, batchEnable, nFlows);
        }
      }
      DfcCountsDone(received, mode, short, hwDropped, nHw, nSimple, nEmc, stats);
      assert stats == old(stats);
      UpdateCounter(Hw, nHw);
      UpdateCounter(Simple, nSimple);
      UpdateCounter(Emc, nEmc);
    }

    /** smc_lookup_batch(): packets that the signature match cache has a flow for go to their places in the flow map,
        the others move up. */
    method SmcLookupBatch(mode: Mode, cnt: nat, ghost slots: seq<Packet>) returns (nMissed: nat)
      requires Sized(packets.Length) && mode.smc && MapAfterDfc(flowMap[..], slots)
      requires MissedAre(slots, mode, Pos(slots, mode, AfterDfc), packets[..], indexMap[..], keys[..], missedKeys[..],
                         cnt)
      modifies packets, missedKeys, flowMap, indexMap, this`stats
      ensures SmcDone(slots, mode, packets[..], indexMap[..], keys[..], missedKeys[..], flowMap[..], nMissed)
      ensures stats == Bump(old(stats), Smc, Count(Remaining(slots, mode, AfterDfc), mode, Smc))
    {
      hide SmcInv;
      hide Bump;
      hide MissedAre;
      hide SmcDone;
      hide MapAfterDfc;
      hide SmcFlow;
      ghost var pos := Pos(slots, mode, AfterDfc);
      var nHit := 0;
      nMissed := 0;
      SmcStart(slots, mode, packets[..], indexMap[..], keys[..], missedKeys[..], flowMap[..], cnt);
      for i := 0 to cnt
        invariant SmcInv(slots, mode, pos, i, packets[..], indexMap[..], keys[..], missedKeys[..], flowMap[..], nMissed,
                         nHit)
        invariant stats == old(stats)
      {
        ghost var packets0, index0, missed0, flowMap0 := packets[..], indexMap[..], missedKeys[..], flowMap[..];
        SmcStep(slots, mode, pos, i, packets[..], indexMap[..], keys[..], missedKeys[..], flowMap[..], nMissed, nHit);
        var p, recvIdx := packets[i], indexMap[i];
        if keys[i].smc.Some? {
          EnqueueToFlowMap(p, keys[i].smc, recvIdx);
          nHit := nHit + 1;
        } else {
          packets[nMissed] := p;
          indexMap[nMissed] := recvIdx;
          missedKeys[nMissed] := i;
          assert packets[..] == packets0[nMissed := p] && indexMap[..] == index0[nMissed := recvIdx];
          assert missedKeys[..] == missed0[nMissed := i] && flowMap[..] == flowMap0;
          nMissed := nMissed + 1;
        }
      }
      SmcEnd(slots, mode, packets[..], indexMap[..], keys[..], missedKeys[..], flowMap[..], nMissed, nHit);
      UpdateCounter(Smc, nHit);
    }

    /** fast_path_processing(): the classifier and, for the packets it misses, the upcalls. */
    method FastPathProcessing(mode: Mode, cnt: nat, ghost slots: seq<Packet>)
      requires Sized(packets.Length) && upcalled == [] && lost == []
      requires SmcDone(slots, mode, packets[..], indexMap[..], keys[..], missedKeys[..], flowMap[..], cnt)
      modifies flowMap, this`upcalled, this`lost, this`stats
      ensures MapDone(flowMap[..], slots, mode)
      ensures upcalled == OfKind(Remaining(slots, mode, AfterSmc), mode, Upcalled)
      ensures lost == OfKind(Remaining(slots, mode, AfterSmc), mode, Lost)
      ensures stats == LateStats(old(stats), Remaining(slots, mode, AfterSmc), mode)
    {
      hide Bump;
      hide SmcDone;
      hide MapDone;
      hide MapLate;
      hide Pending;
      hide LateStats;
      hide Count;
      hide LateRule;
      hide OfKind;
      hide Remaining;
      hide Pos;
      ghost var rest, pos := Remaining(slots, mode, AfterSmc), Pos(slots, mode, AfterSmc);
      FastStart(slots, mode, packets[..], indexMap[..], keys[..], missedKeys[..], flowMap[..], cnt);
      var rules := Classify(cnt);
      var ok, fail := 0, 0;
      if exists i :: 0 <= i < cnt && rules[i].None? {
        ok, fail := Upcalls(mode, cnt, rules, rest);
      } else {
        AllClassified(rest, mode, rules[..]);
      }
      EnqueueLate(mode, cnt, rules, slots);
      FastEnd(slots, mode, flowMap[..], ok, fail, stats);
      UpdateCounter(Masked, cnt - ok - fail);
      UpdateCounter(Upcalled, ok);
      UpdateCounter(Lost, fail);
    }

    /** The classified packets go to their places in the flow map. */
    method EnqueueLate(mode: Mode, cnt: nat, rules: array<Option<FlowId>>, ghost slots: seq<Packet>)
      requires Sized(packets.Length) && rules.Length == cnt <= packets.Length
      requires var pos := Pos(slots, mode, AfterSmc);
               && cnt == |pos| && MapLate(slots, mode, pos, 0, flowMap[..])
               && forall j :: 0 <= j < cnt ==>
                    && packets[j] == slots[pos[j]] && indexMap[j] == pos[j] && Pending(slots[pos[j]], mode, AfterSmc)
                    && rules[j] == LateRule(slots[pos[j]].key, mode)
      modifies flowMap
      ensures MapLate(slots, mode, Pos(slots, mode, AfterSmc), cnt, flowMap[..])
    {
      hide MapLate;
      hide Pending;
      hide LateRule;
      hide Pos;
      ghost var pos := Pos(slots, mode, AfterSmc);
      for i := 0 to cnt
        invariant MapLate(slots, mode, pos, i, flowMap[..])
      {
        MapLateNext(slots, mode, pos, i, flowMap[..]);
        if rules[i].Some? {
          EnqueueToFlowMap(packets[i], rules[i], indexMap[i]);
        }
      }
    }

    /** dpcls_lookup() on the missed keys. */
    method Classify(cnt: nat) returns (rules: array<Option<FlowId>>)
      requires cnt <= missedKeys.Length && forall j :: 0 <= j < cnt ==> missedKeys[j] < keys.Length
      ensures fresh(rules) && rules.Length == cnt
      ensures forall j :: 0 <= j < cnt ==> rules[j] == keys[missedKeys[j]].rule
    {
      rules := new Option<FlowId>[cnt](_ => None);
      for i := 0 to cnt
        invariant forall j :: 0 <= j < i ==> rules[j] == keys[missedKeys[j]].rule
      {
        rules[i] := keys[missedKeys[i]].rule;
      }
    }

    /** The upcalls; without the upcall lock the packets are dropped. */
    method Upcalls(mode: Mode, cnt: nat, rules: array<Option<FlowId>>, ghost rest: seq<Packet>)
      returns (ok: nat, fail: nat)
      requires Sized(packets.Length) && cnt == |rest| == rules.Length <= packets.Length && upcalled == [] && lost == []
      requires forall j :: 0 <= j < cnt ==>
                 && packets[j] == rest[j] && Pending(rest[j], mode, AfterSmc) && rules[j] == rest[j].key.rule
                 && missedKeys[j] < keys.Length && keys[missedKeys[j]] == rest[j].key
      modifies rules, this`upcalled, this`lost
      ensures forall j :: 0 <= j < cnt ==> rules[j] == LateRule(rest[j].key, mode)
      ensures upcalled == OfKind(rest, mode, Upcalled) && lost == OfKind(rest, mode, Lost)
      ensures ok == |upcalled| && fail == |lost|
    {
      hide OfKind;
      hide Pending;
      ok, fail := 0, 0;
      LateStart(rest, mode);
      for i := 0 to cnt
        invariant forall j :: 0 <= j < i ==> rules[j] == LateRule(rest[j].key, mode)
        invariant forall j :: i <= j < cnt ==> rules[j] == rest[j].key.rule
        invariant upcalled == OfKind(rest[..i], mode, Upcalled) && lost == OfKind(rest[..i], mode, Lost)
        invariant ok == |upcalled| && fail == |lost|
      {
        LateNext(rest, mode, i);
        hide KindOf;
        if rules[i].None? {
          var late := keys[missedKeys[i]].late;
          if mode.locked {
            lost, fail := lost + [packets[i]], fail + 1;
          } else if late.Found? {
            rules[i] := Some(late.flow);
          } else if late.UpcallOk? {
            upcalled, ok := upcalled + [packets[i]], ok + 1;
          } else {
            lost, fail := lost + [packets[i]], fail + 1;
          }
        }
      }
      assert rest[..cnt] == rest;
    }

    /** dp_netdev_input__(): at the end every packet has been dropped, upcalled, lost or executed in the batch of its
        flow, and no batch pointer was left set when the first batch was executed. */
    method Run(mode: Mode)
      requires Sized(packets.Length) && batchOf == map[] && batches == [] && executed == []
      requires short == [] && hwDropped == [] && upcalled == [] && lost == []
      modifies this, packets, keys, missedKeys, flowMap, indexMap
      ensures batchOf == map[] && executed == QueueAll(old(packets[..]), mode) && |executed| <= packets.Length
      ensures OneBatchEach(executed) && InOrder(executed, old(packets[..]), mode)
      ensures forall f :: HasBatch(executed, f) <==> InFlow(old(packets[..]), mode, f) != []
      ensures short == OfKind(old(packets[..]), mode, Short) && hwDropped == OfKind(old(packets[..]), mode, HwDrop)
      ensures upcalled == OfKind(old(packets[..]), mode, Upcalled) && lost == OfKind(old(packets[..]), mode, Lost)
      ensures AllCounted(old(stats), stats, old(packets[..]), mode)
    {
      hide DfcInv;
      hide SmcDone;
      hide MapDone;
      hide PointersOk;
      hide Queued;
      hide DfcStats;
      hide LateStats;
      hide AllCounted;
      hide OfKind;
      hide Remaining;
      hide QueueAll;
      hide Bump;
      hide Count;
      hide IndexOf;
      hide FlowOf;
      hide EndsIn;
      hide InFlow;
      hide InOrder;
      hide OneBatchEach;
      hide HasBatch;
      ghost var received := packets[..];
      var nFlows, cnt, m, slots := DfcProcessing(mode);
      ghost var stats0 := stats;
      DfcGives(received, m, mode, slots, batches, flowMap[..], indexMap[..], packets[..], keys[..], missedKeys[..],
               cnt);
      if mode.smc {
        cnt := SmcLookupBatch(mode, cnt, slots);
      }
      if cnt > 0 {
        FastPathProcessing(mode, cnt, slots);
      } else {
        NothingLeft(slots, mode, packets[..], indexMap[..], keys[..], missedKeys[..], flowMap[..]);
      }
      StatsDone(old(stats), stats0, stats, received, slots, mode, cnt);
      RunGives(received, m, mode, slots);
      for i := 0 to nFlows
        invariant PointersOk(batchOf, batches) && batches == QueueAll(received[..m] + slots[..i], mode)
        invariant MapDone(flowMap[..], slots, mode)
        invariant executed == [] && short == OfKind(received, mode, Short)
        invariant hwDropped == OfKind(received, mode, HwDrop)
        invariant upcalled == OfKind(received, mode, Upcalled) && lost == OfKind(received, mode, Lost)
        invariant AllCounted(old(stats), stats, received, mode)
      {
        MapGives(flowMap[..], slots, mode, i);
        QueueSlot(received[..m], slots, i, mode);
        var e := flowMap[i];
        if e.flow.Some? {
          QueueBatch(e.packet, e.flow.value);
        }
      }
      assert slots[..nFlows] == slots;
      BatchesInOrder(received, mode);
      ResetPointers();
      Execute();
    }

    /** All batch pointers are reset before any batch is executed. */
    method ResetPointers()
      requires PointersOk(batchOf, batches)
      modifies this`batchOf
      ensures batchOf == map[]
    {
      hide IndexOf;
      for i := 0 to |batches|
        invariant forall f <- batchOf :: HasBatch(batches, f) && IndexOf(batches, f) >= i
      {
        batchOf := batchOf - {batches[i].flow};
      }
      assert batchOf.Keys == {};
    }

    /** The actions of each batch are executed; this may bring packets back into the datapath. */
    method Execute()
      requires batchOf == map[] && executed == []
      modifies this`executed
      ensures executed == batches
    {
      for i := 0 to |batches|
        invariant executed == batches[..i]
      {
        executed := executed + [batches[i]];
      }
    }
  }

  function Bump(stats: map<Kind, nat>, k: Kind, n: nat): map<Kind, nat> {
    stats[k := n + if k in stats then stats[k] else 0]
  }

  lemma NoPointers()
    ensures PointersOk(map[], [])
  {
  }

  lemma QueuedPointers(batchOf: map<FlowId, nat>, batches: seq<Batch>, f: FlowId, p: Packet)
    requires PointersOk(batchOf, batches)
    ensures f in batchOf ==> batchOf[f] < |batches|
    ensures Queued(batches, f, p) ==
            if f in batchOf then batches[batchOf[f] := Batch(f, batches[batchOf[f]].packets + [p])]
                                     else batches + [Batch(f, [p])]
    ensures PointersOk(if f in batchOf then batchOf else batchOf[f := |batches|], Queued(batches, f, p))
  {
    var after := Queued(batches, f, p);
    hide IndexOf;
    var i := IndexOf(batches, f);
    assert HasBatch(batches, f) <==> i < |batches|;
    forall g
      ensures IndexOf(after, g) == if g == f then i else if HasBatch(batches, g) then IndexOf(batches, g) else |after|
      ensures HasBatch(after, g) <==> HasBatch(batches, g) || g == f
    {
      var b := IndexOf(batches, g);
      if g == f {
        FirstIndex(after, g, i);
      } else if b < |batches| {
        FirstIndex(after, g, b);
      } else {
        NoIndex(after, g);
      }
    }
  }

  lemma FirstIndex(batches: seq<Batch>, f: FlowId, i: nat)
    requires i < |batches| && batches[i].flow == f && forall j :: 0 <= j < i ==> batches[j].flow != f
    ensures IndexOf(batches, f) == i
  {
    hide IndexOf;
  }

  lemma NoIndex(batches: seq<Batch>, f: FlowId)
    requires forall j :: 0 <= j < |batches| ==> batches[j].flow != f
    ensures IndexOf(batches, f) == |batches|
  {
    hide IndexOf;
  }

  // ---------------------------------------------------------------- the first stage

  /** After `i` packets of the first stage. */
  ghost predicate DfcInv(received: seq<Packet>, i: nat, m: nat, mode: Mode, slots: seq<Packet>, batches: seq<Batch>,
                         flowMap: seq<Entry>, indexMap: seq<nat>, packets: seq<Packet>, keys: seq<Key>,
                         missedKeys: seq<nat>, cnt: nat) {
    && m <= i <= |received| == |flowMap| == |indexMap| == |packets| == |keys| == |missedKeys|
    && slots == Undropped(received[m..i]) && |slots| <= i - m
    && batches == QueueAll(received[..m], mode)
    && Remaining(received[..m], mode, AfterDfc) == []
    && MapAfterDfc(flowMap, slots)
    && MissedAre(slots, mode, Pos(slots, mode, AfterDfc), packets, indexMap, keys, missedKeys, cnt)
  }

  ghost predicate MapAfterDfc(flowMap: seq<Entry>, slots: seq<Packet>) {
    |slots| <= |flowMap| && forall k :: 0 <= k < |slots| ==> DfcEntry(flowMap[k], slots[k])
  }

  lemma MapGrow(flowMap: seq<Entry>, slots: seq<Packet>, e: Entry, p: Packet)
    requires MapAfterDfc(flowMap, slots) && |slots| < |flowMap| && DfcEntry(e, p)
    ensures MapAfterDfc(flowMap[|slots| := e], slots + [p])
  {
    hide DfcEntry;
  }

  /** The missed packets, with their places and keys. */
  ghost predicate MissedAre(slots: seq<Packet>, mode: Mode, pos: seq<nat>, packets: seq<Packet>, indexMap: seq<nat>,
                            keys: seq<Key>, missedKeys: seq<nat>, cnt: nat) {
    && cnt == |pos| <= |slots|
    && |pos| <= |packets| == |indexMap| == |keys| == |missedKeys|
    && forall j :: 0 <= j < |pos| ==>
         && pos[j] < |slots| && indexMap[j] == pos[j] && packets[j] == slots[pos[j]]
         && keys[j] == packets[j].key && missedKeys[j] == j
  }

  lemma DfcStart(received: seq<Packet>, mode: Mode, flowMap: seq<Entry>, indexMap: seq<nat>, keys: seq<Key>,
                 missedKeys: seq<nat>)
    requires |received| == |flowMap| == |indexMap| == |keys| == |missedKeys|
    ensures DfcInv(received, 0, 0, mode, [], [], flowMap, indexMap, received, keys, missedKeys, 0)
    ensures DfcCounts(received, 0, mode, [], [], 0, 0, 0)
  {
    assert received[0..0] == [] && received[..0] == [];
  }

  lemma NextSlots(received: seq<Packet>, m: nat, i: nat)
    requires m <= i < |received|
    ensures var slots, p := Undropped(received[m..i]), received[i];
            Undropped(received[m..i + 1]) == if p.dfc.TooShort? || p.dfc.HwDropped? then slots else slots + [p]
  {
    assert received[m..i + 1][..i - m] == received[m..i];
  }

  lemma NextPos(slots: seq<Packet>, p: Packet, mode: Mode, s: Stage)
    ensures var pos := Pos(slots, mode, s);
            Pos(slots + [p], mode, s) == if Pending(p, mode, s) then pos + [|slots|] else pos
  {
    assert (slots + [p])[..|slots|] == slots;
  }

  lemma DfcMissStep(received: seq<Packet>, i: nat, m: nat, mode: Mode, slots: seq<Packet>, batches: seq<Batch>,
                    flowMap: seq<Entry>, indexMap: seq<nat>, packets: seq<Packet>, keys: seq<Key>, missedKeys: seq<nat>,
                    cnt: nat)
    requires DfcInv(received, i, m, mode, slots, batches, flowMap, indexMap, packets, keys, missedKeys, cnt)
    requires i < |received| && received[i].dfc.DfcMiss?
    ensures cnt <= |slots| < |received|
    ensures var p, c := received[i], |slots|;
            DfcInv(received, i + 1, m, mode, slots + [p], batches, flowMap[c := flowMap[c].(flow := None)],
                   indexMap[cnt := c], packets[cnt := p], keys[cnt := p.key], missedKeys[cnt := cnt], cnt + 1)
  {
    hide QueueAll;
    hide Remaining;
    hide Pos;
    hide Undropped;
    hide MapAfterDfc;
    hide MissedAre;
    var p := received[i];
    MissedCount(slots, mode, Pos(slots, mode, AfterDfc), packets, indexMap, keys, missedKeys, cnt);
    NextSlots(received, m, i);
    NextPos(slots, p, mode, AfterDfc);
    MapHas(flowMap, slots);
    MapGrow(flowMap, slots, flowMap[|slots|].(flow := None), p);
    MissedMore(slots, p, mode, Pos(slots, mode, AfterDfc), packets, indexMap, keys, missedKeys, cnt);
  }

  lemma MapHas(flowMap: seq<Entry>, slots: seq<Packet>)
    requires MapAfterDfc(flowMap, slots)
    ensures |slots| <= |flowMap|
  {
  }

  lemma MissedCount(slots: seq<Packet>, mode: Mode, pos: seq<nat>, packets: seq<Packet>, indexMap: seq<nat>,
                    keys: seq<Key>, missedKeys: seq<nat>, cnt: nat)
    requires MissedAre(slots, mode, pos, packets, indexMap, keys, missedKeys, cnt)
    ensures cnt == |pos| <= |slots|
  {
  }

  lemma MissedMore(slots: seq<Packet>, p: Packet, mode: Mode, pos: seq<nat>, packets: seq<Packet>, indexMap: seq<nat>,
                   keys: seq<Key>, missedKeys: seq<nat>, cnt: nat)
    requires MissedAre(slots, mode, pos, packets, indexMap, keys, missedKeys, cnt) && cnt < |packets|
    ensures MissedAre(slots + [p], mode, pos + [|slots|], packets[cnt := p], indexMap[cnt := |slots|],
                      keys[cnt := p.key], missedKeys[cnt := cnt], cnt + 1)
  {
  }

  lemma DfcDropStep(received: seq<Packet>, i: nat, m: nat, mode: Mode, slots: seq<Packet>, batches: seq<Batch>,
                    flowMap: seq<Entry>, indexMap: seq<nat>, packets: seq<Packet>, keys: seq<Key>, missedKeys: seq<nat>,
                    cnt: nat)
    requires DfcInv(received, i, m, mode, slots, batches, flowMap, indexMap, packets, keys, missedKeys, cnt)
    requires i < |received| && DfcFlow(received[i]).None? && !received[i].dfc.DfcMiss?
    ensures DfcInv(received, i + 1, m, mode, slots, batches, flowMap, indexMap, packets, keys, missedKeys, cnt)
    ensures m == i ==> DfcInv(received, i + 1, i + 1, mode, slots, batches, flowMap, indexMap, packets, keys,
                              missedKeys, cnt)
  {
    hide QueueAll;
    hide Remaining;
    hide Pos;
    hide Undropped;
    hide MissedAre;
    NextSlots(received, m, i);
    if m == i {
      DirectStep(received, i, mode);
    }
  }

  lemma DirectStep(received: seq<Packet>, i: nat, mode: Mode)
    requires i < |received| && !received[i].dfc.DfcMiss?
    ensures Undropped(received[i + 1..i + 1]) == [] && Undropped(received[i..i]) == []
    ensures Remaining(received[..i + 1], mode, AfterDfc) == Remaining(received[..i], mode, AfterDfc)
    ensures var r := QueueAll(received[..i], mode);
            QueueAll(received[..i + 1], mode) ==
              if DfcFlow(received[i]).Some? then Queued(r, DfcFlow(received[i]).value, received[i]) else r
  {
    assert received[..i + 1][..i] == received[..i];
  }

  lemma DfcBatchStep(received: seq<Packet>, i: nat, mode: Mode, slots: seq<Packet>, batches: seq<Batch>,
                     flowMap: seq<Entry>, indexMap: seq<nat>, packets: seq<Packet>, keys: seq<Key>,
                     missedKeys: seq<nat>, cnt: nat)
    requires DfcInv(received, i, i, mode, slots, batches, flowMap, indexMap, packets, keys, missedKeys, cnt)
    requires i < |received| && DfcFlow(received[i]).Some?
    ensures DfcInv(received, i + 1, i + 1, mode, slots, Queued(batches, DfcFlow(received[i]).value, received[i]),
                   flowMap, indexMap, packets, keys, missedKeys, cnt)
  {
    hide QueueAll;
    hide Remaining;
    hide Pos;
    hide Undropped;
    hide MissedAre;
    DirectStep(received, i, mode);
  }

  lemma DfcHitStep(received: seq<Packet>, i: nat, m: nat, mode: Mode, slots: seq<Packet>, batches: seq<Batch>,
                   flowMap: seq<Entry>, indexMap: seq<nat>, packets: seq<Packet>, keys: seq<Key>, missedKeys: seq<nat>,
                   cnt: nat)
    requires DfcInv(received, i, m, mode, slots, batches, flowMap, indexMap, packets, keys, missedKeys, cnt)
    requires i < |received| && DfcFlow(received[i]).Some?
    ensures |slots| < |received|
    ensures DfcInv(received, i + 1, m, mode, slots + [received[i]], batches,
                   flowMap[|slots| := Entry(DfcFlow(received[i]), received[i])], indexMap, packets, keys, missedKeys,
                   cnt)
  {
    assert DfcFlow(received[i]).Some? ==>
        !received[i].dfc.TooShort? && !received[i].dfc.HwDropped? && !received[i].dfc.DfcMiss?;
    hide MapAfterDfc;
    hide DfcFlow;
    hide QueueAll;
    hide Remaining;
    hide Pos;
    hide Undropped;
    hide MissedAre;
    NextSlots(received, m, i);
    NextPos(slots, received[i], mode, AfterDfc);
    MissedGrow(slots, received[i], mode, Pos(slots, mode, AfterDfc), packets, indexMap, keys, missedKeys, cnt);
    MapGrow(flowMap, slots, Entry(DfcFlow(received[i]), received[i]), received[i]);
  }

  lemma MissedGrow(slots: seq<Packet>, p: Packet, mode: Mode, pos: seq<nat>, packets: seq<Packet>, indexMap: seq<nat>,
                   keys: seq<Key>, missedKeys: seq<nat>, cnt: nat)
    requires MissedAre(slots, mode, pos, packets, indexMap, keys, missedKeys, cnt)
    ensures MissedAre(slots + [p], mode, pos, packets, indexMap, keys, missedKeys, cnt)
  {
  }

  /** The counts of the first stage after `i` packets. */
  ghost predicate DfcCounts(received: seq<Packet>, i: nat, mode: Mode, short: seq<Packet>, hwDropped: seq<Packet>,
                            nHw: nat, nSimple: nat, nEmc: nat) {
    && i <= |received|
    && short == OfKind(received[..i], mode, Short) && hwDropped == OfKind(received[..i], mode, HwDrop)
    && nHw == |OfKind(received[..i], mode, Hw)| && nSimple == |OfKind(received[..i], mode, Simple)|
    && nEmc == |OfKind(received[..i], mode, Emc)|
  }

  lemma OfKindNext(ps: seq<Packet>, i: nat, mode: Mode, k: Kind)
    requires i < |ps|
    ensures var r := OfKind(ps[..i], mode, k);
            OfKind(ps[..i + 1], mode, k) == if KindOf(ps[i], mode) == k then r + [ps[i]] else r
  {
    assert ps[..i + 1][..i] == ps[..i];
  }

  lemma DfcCounted(received: seq<Packet>, i: nat, mode: Mode, short: seq<Packet>, hwDropped: seq<Packet>, nHw: nat,
                   nSimple: nat, nEmc: nat)
    requires DfcCounts(received, i, mode, short, hwDropped, nHw, nSimple, nEmc) && i < |received|
    ensures var p := received[i];
            DfcCounts(received, i + 1, mode, if p.dfc.TooShort? then short + [p] else short,
                      if p.dfc.HwDropped? then hwDropped + [p] else hwDropped,
                      nHw + (if p.dfc.HwHit? then 1 else 0), nSimple + (if p.dfc.SimpleHit? then 1 else 0),
                      nEmc + (if p.dfc.EmcHit? then 1 else 0))
  {
    OfKindNext(received, i, mode, Short);
    OfKindNext(received, i, mode, HwDrop);
    OfKindNext(received, i, mode, Hw);
    OfKindNext(received, i, mode, Simple);
    OfKindNext(received, i, mode, Emc);
    hide OfKind;
  }

  function Count(ps: seq<Packet>, mode: Mode, k: Kind): nat { |OfKind(ps, mode, k)| }

  function DfcStats(stats: map<Kind, nat>, ps: seq<Packet>, mode: Mode): map<Kind, nat> {
    Bump(Bump(Bump(stats, Hw, Count(ps, mode, Hw)), Simple, Count(ps, mode, Simple)), Emc, Count(ps, mode, Emc))
  }

  lemma DfcCountsDone(received: seq<Packet>, mode: Mode, short: seq<Packet>, hwDropped: seq<Packet>, nHw: nat,
                      nSimple: nat, nEmc: nat, stats: map<Kind, nat>)
    requires DfcCounts(received, |received|, mode, short, hwDropped, nHw, nSimple, nEmc)
    ensures short == OfKind(received, mode, Short) && hwDropped == OfKind(received, mode, HwDrop)
    ensures Bump(Bump(Bump(stats, Hw, nHw), Simple, nSimple), Emc, nEmc) == DfcStats(stats, received, mode)
  {
    assert received[..|received|] == received;
  }

  // ---------------------------------------------------------------- the signature match cache

  /** Those of the places in `pos` whose packets the signature match cache misses. */
  function KeptPos(slots: seq<Packet>, mode: Mode, pos: seq<nat>): (r: seq<nat>)
    requires forall j :: 0 <= j < |pos| ==> pos[j] < |slots|
    ensures |r| <= |pos| && forall j :: 0 <= j < |r| ==> r[j] < |slots|
  {
    if pos == [] then []
    else
      var r := KeptPos(slots, mode, pos[..|pos| - 1]);
      if SmcFlow(slots[pos[|pos| - 1]], mode).Some? then r else r + [pos[|pos| - 1]]
  }

  lemma KeptNext(slots: seq<Packet>, mode: Mode, pos: seq<nat>, i: nat)
    requires i < |pos| && forall j :: 0 <= j < |pos| ==> pos[j] < |slots|
    ensures KeptPos(slots, mode, pos[..i + 1]) ==
            if SmcFlow(slots[pos[i]], mode).Some? then KeptPos(slots, mode, pos[..i])
              else KeptPos(slots, mode, pos[..i]) + [pos[i]]
  {
    assert pos[..i + 1][..i] == pos[..i];
  }

  /** The places kept are those of the packets still pending. */
  lemma {:induction false} KeptIsPos(slots: seq<Packet>, mode: Mode)
    ensures KeptPos(slots, mode, Pos(slots, mode, AfterDfc)) == Pos(slots, mode, AfterSmc)
  {
    if slots != [] {
      var n := |slots| - 1;
      var pos := Pos(slots[..n], mode, AfterDfc);
      KeptIsPos(slots[..n], mode);
      KeptSameSlots(slots[..n], slots, mode, pos);
      if Pending(slots[n], mode, AfterDfc) {
        assert (pos + [n])[..|pos|] == pos;
      }
    }
  }

  lemma {:induction false} KeptSameSlots(a: seq<Packet>, b: seq<Packet>, mode: Mode, pos: seq<nat>)
    requires |a| <= |b| && a == b[..|a|] && forall j :: 0 <= j < |pos| ==> pos[j] < |a|
    ensures KeptPos(a, mode, pos) == KeptPos(b, mode, pos)
  {
    if pos != [] {
      KeptSameSlots(a, b, mode, pos[..|pos| - 1]);
    }
  }

  /** Places of missed packets, each once. */
  ghost predicate MissPlaces(slots: seq<Packet>, pos: seq<nat>) {
    && (forall j :: 0 <= j < |pos| ==> pos[j] < |slots| && slots[pos[j]].dfc.DfcMiss?)
    && (forall a, b :: 0 <= a < b < |pos| ==> pos[a] < pos[b])
    && |pos| <= |slots|
  }

  /** The first `|kept|` entries are the packets at the places `kept`. */
  ghost predicate FrontIs(slots: seq<Packet>, kept: seq<nat>, packets: seq<Packet>, indexMap: seq<nat>, keys: seq<Key>,
                          missedKeys: seq<nat>) {
    && |kept| <= |packets| == |indexMap| == |keys| == |missedKeys|
    && forall j :: 0 <= j < |kept| ==>
         && kept[j] < |slots| && indexMap[j] == kept[j] && packets[j] == slots[kept[j]]
         && missedKeys[j] < |keys| && keys[missedKeys[j]] == packets[j].key
  }

  /** The entries from `i` on are still the packets at the places `pos`. */
  ghost predicate BackIs(slots: seq<Packet>, pos: seq<nat>, i: nat, packets: seq<Packet>, indexMap: seq<nat>,
                         keys: seq<Key>) {
    && |pos| <= |packets| == |indexMap| == |keys|
    && forall j :: i <= j < |pos| ==>
         pos[j] < |slots| && indexMap[j] == pos[j] && packets[j] == slots[pos[j]] && keys[j] == packets[j].key
  }

  /** The flow map with the first `i` missed packets looked up. */
  ghost predicate MapUpTo(slots: seq<Packet>, mode: Mode, pos: seq<nat>, i: nat, flowMap: seq<Entry>) {
    && |slots| <= |flowMap|
    && (forall j :: 0 <= j < |pos| ==> pos[j] < |slots|)
    && (forall k :: 0 <= k < |slots| && !slots[k].dfc.DfcMiss? ==> SmcEntry(flowMap[k], slots[k], mode))
    && (forall j :: 0 <= j < |pos| && j < i ==> SmcEntry(flowMap[pos[j]], slots[pos[j]], mode))
    && (forall j :: i <= j < |pos| ==> flowMap[pos[j]].flow == None)
  }

  ghost predicate SmcInv(slots: seq<Packet>, mode: Mode, pos: seq<nat>, i: nat, packets: seq<Packet>,
                         indexMap: seq<nat>, keys: seq<Key>, missedKeys: seq<nat>, flowMap: seq<Entry>, nMissed: nat,
                         nHit: nat) {
    && mode.smc && i <= |pos| && MissPlaces(slots, pos)
    && nMissed == |KeptPos(slots, mode, pos[..i])|
    && nMissed + nHit == i
    && FrontIs(slots, KeptPos(slots, mode, pos[..i]), packets, indexMap, keys, missedKeys)
    && BackIs(slots, pos, i, packets, indexMap, keys)
    && MapUpTo(slots, mode, pos, i, flowMap)
  }

  lemma MissedPlaces(slots: seq<Packet>, mode: Mode)
    ensures MissPlaces(slots, Pos(slots, mode, AfterDfc))
  {
    PosAre(slots, mode, AfterDfc);
  }

  lemma SmcStart(slots: seq<Packet>, mode: Mode, packets: seq<Packet>, indexMap: seq<nat>, keys: seq<Key>,
                 missedKeys: seq<nat>, flowMap: seq<Entry>, cnt: nat)
    requires mode.smc && MapAfterDfc(flowMap, slots)
    requires MissedAre(slots, mode, Pos(slots, mode, AfterDfc), packets, indexMap, keys, missedKeys, cnt)
    ensures cnt == |Pos(slots, mode, AfterDfc)|
    ensures SmcInv(slots, mode, Pos(slots, mode, AfterDfc), 0, packets, indexMap, keys, missedKeys, flowMap, 0, 0)
  {
    MissedPlaces(slots, mode);
    hide Pos;
  }

  /** One step: what is there at `i`, and the two ways to go on. */
  lemma SmcStep(slots: seq<Packet>, mode: Mode, pos: seq<nat>, i: nat, packets: seq<Packet>, indexMap: seq<nat>,
                keys: seq<Key>, missedKeys: seq<nat>, flowMap: seq<Entry>, nMissed: nat, nHit: nat)
    requires SmcInv(slots, mode, pos, i, packets, indexMap, keys, missedKeys, flowMap, nMissed, nHit) && i < |pos|
    ensures i < |packets| == |indexMap| == |keys| == |missedKeys| && nMissed <= i && indexMap[i] < |flowMap|
    ensures keys[i].smc.Some? ==>
              SmcInv(slots, mode, pos, i + 1, packets, indexMap, keys, missedKeys,
                     flowMap[indexMap[i] := Entry(keys[i].smc, packets[i])], nMissed, nHit + 1)
    ensures keys[i].smc.None? ==>
              SmcInv(slots, mode, pos, i + 1, packets[nMissed := packets[i]], indexMap[nMissed := indexMap[i]], keys,
                     missedKeys[nMissed := i], flowMap, nMissed + 1, nHit)
  {
    KeptNext(slots, mode, pos, i);
    var kept := KeptPos(slots, mode, pos[..i]);
    assert SmcFlow(slots[pos[i]], mode) == keys[i].smc;
    hide KeptPos;
    hide SmcFlow;
    MapNext(slots, mode, pos, i, flowMap, keys[i].smc);
    if keys[i].smc.None? {
      FrontNext(slots, kept, packets, indexMap, keys, missedKeys, pos[i], i);
      BackNext(slots, pos, i, packets, indexMap, keys, |kept|);
    }
  }

  lemma MapNext(slots: seq<Packet>, mode: Mode, pos: seq<nat>, i: nat, flowMap: seq<Entry>, flow: Option<FlowId>)
    requires MapUpTo(slots, mode, pos, i, flowMap) && i < |pos| && MissPlaces(slots, pos)
    requires flow == SmcFlow(slots[pos[i]], mode)
    ensures flow.Some? ==> MapUpTo(slots, mode, pos, i + 1, flowMap[pos[i] := Entry(flow, slots[pos[i]])])
    ensures flow.None? ==> MapUpTo(slots, mode, pos, i + 1, flowMap)
  {
    hide SmcFlow;
  }

  lemma FrontNext(slots: seq<Packet>, kept: seq<nat>, packets: seq<Packet>, indexMap: seq<nat>, keys: seq<Key>,
                  missedKeys: seq<nat>, place: nat, key: nat)
    requires FrontIs(slots, kept, packets, indexMap, keys, missedKeys) && |kept| < |packets|
    requires place < |slots| && key < |keys| && keys[key] == slots[place].key
    ensures FrontIs(slots, kept + [place], packets[|kept| := slots[place]], indexMap[|kept| := place], keys,
                    missedKeys[|kept| := key])
  {
  }

  lemma BackNext(slots: seq<Packet>, pos: seq<nat>, i: nat, packets: seq<Packet>, indexMap: seq<nat>, keys: seq<Key>,
                 n: nat)
    requires BackIs(slots, pos, i, packets, indexMap, keys) && n <= i < |pos|
    ensures BackIs(slots, pos, i + 1, packets[n := packets[i]], indexMap[n := indexMap[i]], keys)
  {
  }

  /** What the last stage finds: the packets still pending, with places and keys, and a flow map without holes but for
      them. */
  ghost predicate SmcDone(slots: seq<Packet>, mode: Mode, packets: seq<Packet>, indexMap: seq<nat>, keys: seq<Key>,
                          missedKeys: seq<nat>, flowMap: seq<Entry>, cnt: nat) {
    && cnt == |Pos(slots, mode, AfterSmc)|
    && FrontIs(slots, Pos(slots, mode, AfterSmc), packets, indexMap, keys, missedKeys)
    && MapAfterSmc(flowMap, slots, mode)
  }

  ghost predicate MapAfterSmc(flowMap: seq<Entry>, slots: seq<Packet>, mode: Mode) {
    |slots| <= |flowMap| && forall k :: 0 <= k < |slots| ==> SmcEntry(flowMap[k], slots[k], mode)
  }

  lemma SmcEnd(slots: seq<Packet>, mode: Mode, packets: seq<Packet>, indexMap: seq<nat>, keys: seq<Key>,
               missedKeys: seq<nat>, flowMap: seq<Entry>, nMissed: nat, nHit: nat)
    requires SmcInv(slots, mode, Pos(slots, mode, AfterDfc), |Pos(slots, mode, AfterDfc)|, packets, indexMap, keys,
                    missedKeys, flowMap, nMissed, nHit)
    ensures SmcDone(slots, mode, packets, indexMap, keys, missedKeys, flowMap, nMissed)
    ensures nHit == Count(Remaining(slots, mode, AfterDfc), mode, Smc)
  {
    var pos := Pos(slots, mode, AfterDfc);
    assert pos[..|pos|] == pos;
    KeptIsPos(slots, mode);
    forall k | 0 <= k < |slots| && slots[k].dfc.DfcMiss?
      ensures SmcEntry(flowMap[k], slots[k], mode)
    {
      var j := PosFinds(slots, mode, AfterDfc, k);
    }
    PosAre(slots, mode, AfterDfc);
    PosAre(slots, mode, AfterSmc);
    SmcKinds(slots, mode);
    SmcSplit(slots, mode);
  }

  lemma {:induction false} SmcSplit(ps: seq<Packet>, mode: Mode)
    ensures |Remaining(ps, mode, AfterDfc)| == |Remaining(ps, mode, AfterSmc)| + |OfKind(ps, mode, Smc)|
  {
    if ps != [] {
      SmcSplit(ps[..|ps| - 1], mode);
    }
  }

  // ---------------------------------------------------------------- the last stage

  /** The flow map with the first `i` of the remaining packets classified. */
  ghost predicate MapLate(slots: seq<Packet>, mode: Mode, pos: seq<nat>, i: nat, flowMap: seq<Entry>) {
    && |slots| <= |flowMap|
    && (forall j :: 0 <= j < |pos| ==> pos[j] < |slots|)
    && (forall a, b :: 0 <= a < b < |pos| ==> pos[a] < pos[b])
    && (forall k :: 0 <= k < |slots| && !Pending(slots[k], mode, AfterSmc) ==> FinalEntry(flowMap[k], slots[k], mode))
    && (forall j :: 0 <= j < |pos| && j < i ==> FinalEntry(flowMap[pos[j]], slots[pos[j]], mode))
    && (forall j :: i <= j < |pos| ==> flowMap[pos[j]].flow == None)
  }

  ghost predicate MapDone(flowMap: seq<Entry>, slots: seq<Packet>, mode: Mode) {
    |slots| <= |flowMap| && forall k :: 0 <= k < |slots| ==> FinalEntry(flowMap[k], slots[k], mode)
  }

  function LateStats(stats: map<Kind, nat>, ps: seq<Packet>, mode: Mode): map<Kind, nat> {
    Bump(Bump(Bump(stats, Masked, Count(ps, mode, Masked)), Upcalled, Count(ps, mode, Upcalled)), Lost,
         Count(ps, mode, Lost))
  }

  lemma FastStart(slots: seq<Packet>, mode: Mode, packets: seq<Packet>, indexMap: seq<nat>, keys: seq<Key>,
                  missedKeys: seq<nat>, flowMap: seq<Entry>, cnt: nat)
    requires SmcDone(slots, mode, packets, indexMap, keys, missedKeys, flowMap, cnt)
    ensures var rest, pos := Remaining(slots, mode, AfterSmc), Pos(slots, mode, AfterSmc);
            && cnt == |rest| == |pos| <= |packets| == |indexMap| == |missedKeys|
            && MapLate(slots, mode, pos, 0, flowMap)
            && forall j :: 0 <= j < cnt ==>
                 && packets[j] == rest[j] == slots[pos[j]] && indexMap[j] == pos[j] && Pending(rest[j], mode, AfterSmc)
                 && missedKeys[j] < |keys| && keys[missedKeys[j]] == rest[j].key
  {
    PosAre(slots, mode, AfterSmc);
    hide Pos;
    hide Remaining;
  }

  lemma LateStart(rest: seq<Packet>, mode: Mode)
    ensures OfKind(rest[..0], mode, Upcalled) == [] && OfKind(rest[..0], mode, Lost) == []
  {
  }

  lemma LateNext(rest: seq<Packet>, mode: Mode, i: nat)
    requires i < |rest| && Pending(rest[i], mode, AfterSmc)
    ensures var p := rest[i];
            && OfKind(rest[..i + 1], mode, Upcalled) ==
                 OfKind(rest[..i], mode, Upcalled) +
                   (if p.key.rule.None? && !mode.locked && p.key.late.UpcallOk? then [p] else [])
            && OfKind(rest[..i + 1], mode, Lost) ==
                 OfKind(rest[..i], mode, Lost) +
                   (if p.key.rule.None? && (mode.locked || p.key.late.UpcallNoSpace? || p.key.late.UpcallError?)
                    then [p] else [])
  {
    OfKindNext(rest, i, mode, Upcalled);
    OfKindNext(rest, i, mode, Lost);
    hide OfKind;
  }

  lemma {:induction false} NoLate(rest: seq<Packet>, mode: Mode)
    requires forall j :: 0 <= j < |rest| ==> Pending(rest[j], mode, AfterSmc) && rest[j].key.rule.Some?
    ensures OfKind(rest, mode, Upcalled) == [] && OfKind(rest, mode, Lost) == []
  {
    if rest != [] {
      NoLate(rest[..|rest| - 1], mode);
    }
  }

  /** If the classifier found rules for all packets, there is nothing to do. */
  lemma AllClassified(rest: seq<Packet>, mode: Mode, rules: seq<Option<FlowId>>)
    requires |rules| == |rest| && forall j :: 0 <= j < |rest| ==>
             Pending(rest[j], mode, AfterSmc) && rules[j] == rest[j].key.rule
    requires !exists i :: 0 <= i < |rest| && rules[i].None?
    ensures forall j :: 0 <= j < |rest| ==> rules[j] == LateRule(rest[j].key, mode)
    ensures OfKind(rest, mode, Upcalled) == [] && OfKind(rest, mode, Lost) == []
  {
    forall j | 0 <= j < |rest|
      ensures rest[j].key.rule.Some?
    {
      assert !rules[j].None?;
    }
    NoLate(rest, mode);
  }

  lemma MapLateNext(slots: seq<Packet>, mode: Mode, pos: seq<nat>, i: nat, flowMap: seq<Entry>)
    requires MapLate(slots, mode, pos, i, flowMap) && i < |pos| && Pending(slots[pos[i]], mode, AfterSmc)
    ensures var p := slots[pos[i]];
            var rule := LateRule(p.key, mode);
            pos[i] < |flowMap| && MapLate(slots, mode, pos, i + 1,
                                          if rule.Some? then flowMap[pos[i] := Entry(rule, p)] else flowMap)
  {
    assert FlowOf(slots[pos[i]], mode) == LateRule(slots[pos[i]].key, mode);
    hide FlowOf;
    hide LateRule;
    hide Pending;
  }

  lemma {:induction false} LateSplit(rest: seq<Packet>, mode: Mode)
    requires forall j :: 0 <= j < |rest| ==> Pending(rest[j], mode, AfterSmc)
    ensures |rest| == Count(rest, mode, Masked) + Count(rest, mode, Upcalled) + Count(rest, mode, Lost)
  {
    if rest != [] {
      LateSplit(rest[..|rest| - 1], mode);
    }
  }

  lemma FastEnd(slots: seq<Packet>, mode: Mode, flowMap: seq<Entry>, ok: nat, fail: nat, stats: map<Kind, nat>)
    requires var pos := Pos(slots, mode, AfterSmc); MapLate(slots, mode, pos, |pos|, flowMap)
    requires ok == |OfKind(Remaining(slots, mode, AfterSmc), mode, Upcalled)|
    requires fail == |OfKind(Remaining(slots, mode, AfterSmc), mode, Lost)|
    ensures MapDone(flowMap, slots, mode) && |Pos(slots, mode, AfterSmc)| - ok - fail >= 0
    ensures Bump(Bump(Bump(stats, Masked, |Pos(slots, mode, AfterSmc)| - ok - fail), Upcalled, ok), Lost, fail) ==
            LateStats(stats, Remaining(slots, mode, AfterSmc), mode)
  {
    PosAre(slots, mode, AfterSmc);
    LateSplit(Remaining(slots, mode, AfterSmc), mode);
    hide FlowOf;
    hide Bump;
    forall k | 0 <= k < |slots| && Pending(slots[k], mode, AfterSmc)
      ensures FinalEntry(flowMap[k], slots[k], mode)
    {
      var j := PosFinds(slots, mode, AfterSmc, k);
    }
  }

  // ---------------------------------------------------------------- the whole call

  lemma DfcGives(received: seq<Packet>, m: nat, mode: Mode, slots: seq<Packet>, batches: seq<Batch>,
                 flowMap: seq<Entry>, indexMap: seq<nat>, packets: seq<Packet>, keys: seq<Key>, missedKeys: seq<nat>,
                 cnt: nat)
    requires DfcInv(received, |received|, m, mode, slots, batches, flowMap, indexMap, packets, keys, missedKeys, cnt)
    ensures m <= |received| && slots == Undropped(received[m..]) && batches == QueueAll(received[..m], mode)
    ensures MapAfterDfc(flowMap, slots)
    ensures MissedAre(slots, mode, Pos(slots, mode, AfterDfc), packets, indexMap, keys, missedKeys, cnt)
    ensures !mode.smc ==> SmcDone(slots, mode, packets, indexMap, keys, missedKeys, flowMap, cnt)
    ensures Remaining(slots, mode, AfterDfc) == Remaining(received, mode, AfterDfc)
  {
    hide Pos;
    hide Remaining;
    hide QueueAll;
    hide Undropped;
    assert received[m..|received|] == received[m..];
    if !mode.smc {
      SamePos(slots, mode);
    }
    RemainingOfUndropped(received[m..], mode, AfterDfc);
    RemainingConcat(received[..m], received[m..], mode, AfterDfc);
    assert received[..m] + received[m..] == received;
  }

  lemma {:induction false} SamePos(slots: seq<Packet>, mode: Mode)
    requires !mode.smc
    ensures Pos(slots, mode, AfterDfc) == Pos(slots, mode, AfterSmc)
  {
    if slots != [] {
      SamePos(slots[..|slots| - 1], mode);
    }
  }

  /** No packet remains for the last stage. */
  lemma NothingLeft(slots: seq<Packet>, mode: Mode, packets: seq<Packet>, indexMap: seq<nat>, keys: seq<Key>,
                    missedKeys: seq<nat>, flowMap: seq<Entry>)
    requires SmcDone(slots, mode, packets, indexMap, keys, missedKeys, flowMap, 0)
    ensures MapDone(flowMap, slots, mode) && Remaining(slots, mode, AfterSmc) == []
    ensures OfKind(Remaining(slots, mode, AfterSmc), mode, Upcalled) == []
    ensures OfKind(Remaining(slots, mode, AfterSmc), mode, Lost) == []
  {
    PosAre(slots, mode, AfterSmc);
    forall k | 0 <= k < |slots|
      ensures FinalEntry(flowMap[k], slots[k], mode)
    {
      if Pending(slots[k], mode, AfterSmc) {
        var j := PosFinds(slots, mode, AfterSmc, k);
      }
    }
  }

  function Stat(stats: map<Kind, nat>, k: Kind): nat {
    if k in stats then stats[k] else 0
  }

  /** Each counter has grown by the number of packets of its kind. */
  ghost predicate AllCounted(before: map<Kind, nat>, after: map<Kind, nat>, ps: seq<Packet>, mode: Mode) {
    forall k :: k != Short && k != HwDrop ==> Stat(after, k) == Stat(before, k) + Count(ps, mode, k)
  }

  lemma StatsDone(stats: map<Kind, nat>, stats0: map<Kind, nat>, stats': map<Kind, nat>, received: seq<Packet>,
                  slots: seq<Packet>, mode: Mode, cnt: nat)
    requires stats0 == DfcStats(stats, received, mode)
    requires Remaining(slots, mode, AfterDfc) == Remaining(received, mode, AfterDfc)
    requires var stats1 :=
               if mode.smc then Bump(stats0, Smc, Count(Remaining(slots, mode, AfterDfc), mode, Smc)) else stats0;
             stats' == if cnt > 0 then LateStats(stats1, Remaining(slots, mode, AfterSmc), mode) else stats1
    requires cnt == 0 ==> Remaining(slots, mode, AfterSmc) == []
    ensures AllCounted(stats, stats', received, mode)
  {
    hide OfKind;
    hide Remaining;
    hide Bump;
    hide Stat;
    hide KindOf;
    LateSame(received, slots, mode);
    SmcKinds(received, mode);
    LateKinds(received, mode, Masked);
    LateKinds(received, mode, Upcalled);
    LateKinds(received, mode, Lost);
    var rest := Remaining(slots, mode, AfterSmc);
    NoneOfKind(mode);
    forall k | k != Short && k != HwDrop
      ensures Stat(stats', k) == Stat(stats, k) + Count(received, mode, k)
    {
      BumpThree(stats, Hw, Count(received, mode, Hw), Simple, Count(received, mode, Simple), Emc,
                Count(received, mode, Emc), k);
      BumpOne(stats0, Smc, Count(received, mode, Smc), k);
      var stats1 := if mode.smc then Bump(stats0, Smc, Count(received, mode, Smc)) else stats0;
      BumpThree(stats1, Masked, Count(rest, mode, Masked), Upcalled, Count(rest, mode, Upcalled), Lost,
                Count(rest, mode, Lost), k);
      hide LateStats;
      hide DfcStats;
    }
  }

  lemma NoneOfKind(mode: Mode)
    ensures forall k :: OfKind([], mode, k) == []
  {
  }

  lemma BumpOne(s: map<Kind, nat>, k: Kind, n: nat, j: Kind)
    ensures Stat(Bump(s, k, n), j) == Stat(s, j) + if j == k then n else 0
  {
  }

  lemma BumpThree(s: map<Kind, nat>, a: Kind, x: nat, b: Kind, y: nat, c: Kind, z: nat, j: Kind)
    requires a != b && b != c && a != c
    ensures Stat(Bump(Bump(Bump(s, a, x), b, y), c, z), j) ==
            Stat(s, j) + if j == a then x else if j == b then y else if j == c then z else 0
  {
  }

  lemma LateSame(received: seq<Packet>, slots: seq<Packet>, mode: Mode)
    requires Remaining(slots, mode, AfterDfc) == Remaining(received, mode, AfterDfc)
    ensures Remaining(slots, mode, AfterSmc) == Remaining(received, mode, AfterSmc)
  {
    SmcKinds(received, mode);
    SmcKinds(slots, mode);
  }

  lemma RunGives(received: seq<Packet>, m: nat, mode: Mode, slots: seq<Packet>)
    requires m <= |received| && slots == Undropped(received[m..])
    requires Remaining(slots, mode, AfterDfc) == Remaining(received, mode, AfterDfc)
    ensures OfKind(Remaining(slots, mode, AfterSmc), mode, Upcalled) == OfKind(received, mode, Upcalled)
    ensures OfKind(Remaining(slots, mode, AfterSmc), mode, Lost) == OfKind(received, mode, Lost)
    ensures QueueAll(received[..m] + slots, mode) == QueueAll(received, mode)
    ensures received[..m] + slots[..0] == received[..m]
  {
    LateSame(received, slots, mode);
    LateKinds(received, mode, Upcalled);
    LateKinds(received, mode, Lost);
    QueueUndropped(received[..m], received[m..], mode);
    assert received[..m] + received[m..] == received;
  }

  lemma MapGives(flowMap: seq<Entry>, slots: seq<Packet>, mode: Mode, i: nat)
    requires MapDone(flowMap, slots, mode) && i < |slots|
    ensures i < |flowMap| && flowMap[i].flow == FlowOf(slots[i], mode)
    ensures flowMap[i].flow.Some? ==> flowMap[i].packet == slots[i]
  {
  }

  lemma QueueSlot(a: seq<Packet>, slots: seq<Packet>, i: nat, mode: Mode)
    requires i < |slots|
    ensures var r := QueueAll(a + slots[..i], mode);
            QueueAll(a + slots[..i + 1], mode) ==
              if FlowOf(slots[i], mode).Some? then Queued(r, FlowOf(slots[i], mode).value, slots[i]) else r
  {
    assert a + slots[..i + 1] == a + slots[..i] + [slots[i]];
    QueueNext(a + slots[..i], slots[i], mode);
  }
}
