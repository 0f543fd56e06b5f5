/** The flows of a PMD thread and the caches in front of its classifier: the flow table, the exact match cache
    (EMC), the signature match cache (SMC) and the simple match table, with the reference counts that keep
    flows alive.  Threads are not modelled: each method is one step under the flow mutex or of the PMD. */
module FlowCaches {
  import opened Base
  import opened FlowModel
  import opened SimpleMatch

  type FlowId = nat

  /** A flow object.  `refs` 0: released, its memory still there until the next grace period. */
  datatype Flow = Flow(match_: Match, dead: bool, refs: nat)

  /** An EMC entry; `key` is None for an entry never used. */
  datatype EmcEntry = EmcEntry(key: Option<Key>, hash: nat, flow: Option<FlowId>)

  // ---------------------------------------------------------------- who holds a flow

  function EmcCount(entries: seq<EmcEntry>, f: FlowId): nat {
    if entries == [] then 0
    else EmcCount(entries[..|entries| - 1], f) + if entries[|entries| - 1].flow == Some(f) then 1 else 0
  }

  function Occurs(s: seq<FlowId>, f: FlowId): nat {
    if s == [] then 0 else (if s[0] == f then 1 else 0) + Occurs(s[1..], f)
  }

  function One(b: bool): nat { if b then 1 else 0 }

  /** The flow table, the EMC entries, the simple match table, the pending offload items and the mark association that
      hold the flow. */
  ghost function Holders(f: FlowId, table: set<FlowId>, entries: seq<EmcEntry>, simple: set<FlowId>,
                         pending: seq<FlowId>, marked: set<FlowId>): nat {
    One(f in table) + EmcCount(entries, f) + One(f in simple) + Occurs(pending, f) + One(f in marked)
  }

  lemma {:induction false} EmcCountSet(entries: seq<EmcEntry>, i: nat, e: EmcEntry, f: FlowId)
    requires i < |entries|
    ensures EmcCount(entries[i := e], f) == EmcCount(entries, f)
            - One(entries[i].flow == Some(f)) + One(e.flow == Some(f))
    ensures entries[i].flow == Some(f) ==> EmcCount(entries, f) > 0
  {
    var n := |entries| - 1;
    if i == n {
      assert entries[i := e][..n] == entries[..n];
    } else {
      EmcCountSet(entries[..n], i, e, f);
      assert entries[i := e][..n] == entries[..n][i := e];
    }
  }

  lemma {:induction false} EmcCountNone(entries: seq<EmcEntry>, f: FlowId)
    ensures EmcCount(entries, f) == 0 <==> forall i :: 0 <= i < |entries| ==> entries[i].flow != Some(f)
  {
    if entries != [] {
      EmcCountNone(entries[..|entries| - 1], f);
    }
  }

  lemma {:induction false} OccursSnoc(s: seq<FlowId>, g: FlowId, f: FlowId)
    ensures Occurs(s + [g], f) == Occurs(s, f) + One(g == f)
  {
    if s == [] {
      assert s + [g] == [g];
    } else {
      assert (s + [g])[1..] == s[1..] + [g];
      OccursSnoc(s[1..], g, f);
    }
  }

  lemma {:induction false} OccursNone(s: seq<FlowId>, f: FlowId)
    ensures Occurs(s, f) == 0 <==> f !in s
  {
    if s != [] {
      OccursNone(s[1..], f);
    }
  }

  // ---------------------------------------------------------------- invariants

  /** Every flow object counts exactly its holders, and no one holds anything else. */
  ghost predicate RefsExact(flows: map<FlowId, Flow>, table: set<FlowId>, entries: seq<EmcEntry>, simple: set<FlowId>,
                            pending: seq<FlowId>, marked: set<FlowId>) {
    && (forall f <- flows :: flows[f].refs == Holders(f, table, entries, simple, pending, marked))
    && (forall f :: Holders(f, table, entries, simple, pending, marked) > 0 ==> f in flows)
  }

  /** The flow table holds exactly the flows that are not dead, pairwise disjoint; the simple match table holds some
      of them, all simple. */
  ghost predicate TablesOk(h: Host, flows: map<FlowId, Flow>, table: set<FlowId>, simple: set<FlowId>) {
    && simple <= table
    && (forall f <- flows :: f in table <==> !flows[f].dead)
    && table <= flows.Keys
    && (forall f <- simple :: IsSimple(h, flows[f].match_))
    && (forall f, g :: f in table && g in table && f != g ==> Disjoint(flows[f].match_, flows[g].match_))
  }

  /** Whatever flow an EMC entry holds matches the key of the entry. */
  ghost predicate EmcSound(flows: map<FlowId, Flow>, entries: seq<EmcEntry>) {
    forall e <- entries :: e.flow.Some? && e.flow.value in flows ==>
      e.key.Some? && Matches(flows[e.flow.value].match_, e.key.value)
  }

  function OnPort(flows: map<FlowId, Flow>, s: set<FlowId>, p: Port): set<FlowId> {
    set f | f in s && f in flows && flows[f].match_.inPort == p
  }

  function Count(m: map<Port, nat>, p: Port): nat {
    if p in m then m[p] else 0
  }

  /** The per-port counters. */
  ghost predicate CountsOk(flows: map<FlowId, Flow>, s: set<FlowId>, counts: map<Port, nat>) {
    forall p :: Count(counts, p) == |OnPort(flows, s, p)|
  }

  class PmdFlows {
    var flows: map<FlowId, Flow>
    var table: set<FlowId>
    var simple: set<FlowId>
    var nFlows: map<Port, nat>
    var nSimple: map<Port, nat>
    var pending: seq<FlowId>
    var marked: set<FlowId>
    const emc: array<EmcEntry>
    const host: Host

    ghost predicate Valid()
      reads this, emc
    {
      && RefsExact(flows, table, emc[..], simple, pending, marked)
      && TablesOk(host, flows, table, simple)
      && EmcSound(flows, emc[..])
      && CountsOk(flows, table, nFlows) && CountsOk(flows, simple, nSimple)
    }

    /** What a scan of the flow table finds: the flow that matches the packet, if any (by `ScanIsOne` there is at most
        one). */
    ghost predicate IsScan(k: Key, r: Option<FlowId>)
      reads this
    {
      ScanResult(flows, table, k, r)
    }

    lemma ScanIsOne(k: Key, a: Option<FlowId>, b: Option<FlowId>)
      requires Valid() && IsScan(k, a) && IsScan(k, b)
      ensures a == b
    {
    }

    constructor (size: nat, host: Host)
      ensures Valid() && fresh(emc) && emc.Length == size && this.host == host
      ensures flows == map[] && table == {} && pending == [] && marked == {}
    {
      flows, table, simple, nFlows, nSimple, pending, marked := map[], {}, {}, map[], map[], [], {};
      var entries := new EmcEntry[size](_ => EmcEntry(None, 0, None));
      emc := entries;
      this.host := host;
      new;
      forall f: FlowId
        ensures EmcCount(emc[..], f) == 0
      {
        EmcCountNone(emc[..], f);
      }
    }

    // -------------------------------------------------------------- simple match

    /** dp_netdev_simple_match_lookup(). */
    method SimpleLookup(mark: bv64) returns (r: Option<FlowId>)
      requires simple <= flows.Keys
      ensures r.Some? ==> r.value in simple && FlowMark(host, flows[r.value]) == mark
      ensures r.None? ==> forall f <- simple :: FlowMark(host, flows[f]) != mark
    {
      var hits := set f | f in simple && FlowMark(host, flows[f]) == mark;
      if hits == {} {
        assert forall f <- simple :: FlowMark(host, flows[f]) == mark ==> f in hits;
        return None;
      }
      var f :| f in hits;
      return Some(f);
    }

    /** dp_netdev_simple_match_remove(): takes the flow out if the lookup by its mark finds it. */
    method SimpleRemove(f: FlowId)
      requires TablesOk(host, flows, table, simple) && CountsOk(flows, simple, nSimple)
      requires f in flows && (f in simple ==> flows[f].refs > 0)
      modifies this
      ensures simple == old(simple) - {f} && CountsOk(flows, simple, nSimple)
      ensures flows == if f in old(simple) then Unref(old(flows), f) else old(flows)
      ensures table == old(table) && nFlows == old(nFlows) && pending == old(pending) && marked == old(marked)
    {
      hide TablesOk;
      hide CountsOk;
      hide FlowMark;
      hide Count;
      InFlows(host, flows, table, simple);
      var found := SimpleLookup(FlowMark(host, flows[f]));
      if f in simple {
        OneByMark(host, flows, table, simple, f, found);
      }
      if found == Some(f) {
        CountsRemoved(flows, simple, nSimple, f);
        simple := simple - {f};
        nSimple := Bumped(nSimple, flows[f].match_.inPort, -1);
        CountsSameMatches(flows, Unref(flows, f), simple, nSimple);
        flows := Unref(flows, f);
      } else {
        assert simple - {f} == simple;
      }
    }

    /** dp_netdev_simple_match_insert(). */
    method SimpleInsert(f: FlowId)
      requires Valid() && f in table && IsSimple(host, flows[f].match_)
      modifies this
      ensures Valid()
      ensures simple == old(simple) + {f} && table == old(table) && pending == old(pending) && marked == old(marked)
      ensures flows.Keys == old(flows.Keys) && forall g <- flows :: SameFlow(old(flows)[g], flows[g])
    {
      hide EmcSound;
      hide TablesOk;
      hide CountsOk;
      hide RefsExact;
      hide IsSimple;
      hide Count;
      InFlows(host, flows, table, simple);
      HeldHasRefs(flows, table, emc[..], simple, pending, marked, f);
      assert flows[f].refs != 0;
      ghost var before := flows;
      CountsSameMatches(flows, Ref(flows, f), simple, nSimple);
      RefTablesOk(host, flows, Ref(flows, f), table, simple);
      flows := Ref(flows, f);
      SimpleRemove(f);
      CountsAdded(flows, simple, nSimple, f);
      simple := simple + {f};
      nSimple := Bumped(nSimple, flows[f].match_.inPort, 1);
      InsertedRefs(before, flows, table, emc[..], old(simple), simple, pending, marked, f);
      CountsSameMatches(before, flows, table, nFlows);
      RefEmcSound(before, flows, emc[..]);
      InsertedTables(host, before, flows, table, old(simple), f);
    }

    // -------------------------------------------------------------- the flow table

    /** dp_netdev_flow_add(), under the caller's obligation that the new flow is disjoint from the others.  `f` is the
        new object, `offload` whether hardware offload is enabled. */
    method FlowAdd(f: FlowId, m: Match, offload: bool)
      requires Valid() && f !in flows
      requires forall g <- table :: g in flows ==> Disjoint(m, flows[g].match_)
      modifies this
      ensures Valid() && table == old(table) + {f} && f in flows && flows[f].match_ == m && !flows[f].dead
      ensures flows.Keys == old(flows.Keys) + {f} && forall g <- old(flows) :: SameFlow(old(flows)[g], flows[g])
      ensures simple == if IsSimple(host, m) then old(simple) + {f} else old(simple)
      ensures pending == if offload then old(pending) + [f] else old(pending)
      ensures marked == old(marked)
    {
      hide RefsExact;
      hide TablesOk;
      hide EmcSound;
      hide CountsOk;
      hide IsSimple;
      hide Count;
      AddedOk(host, flows, table, emc[..], simple, pending, marked, nFlows, nSimple, f, m);
      flows := flows[f := Flow(m, false, 1)];
      table := table + {f};
      nFlows := Bumped(nFlows, m.inPort, 1);
      if IsSimple(host, m) {
        SimpleInsert(f);
      }
      if offload {
        Enqueue(f);
      }
    }

    /** dp_netdev_alloc_flow_offload() and its enqueueing: the item holds the flow. */
    method Enqueue(f: FlowId)
      requires Valid() && (f in table || f in marked)
      modifies this
      ensures Valid() && table == old(table) && simple == old(simple) && marked == old(marked)
      ensures flows.Keys == old(flows.Keys) && forall g <- flows :: SameFlow(old(flows)[g], flows[g])
      ensures pending == old(pending) + [f]
    {
      hide RefsExact;
      hide TablesOk;
      hide EmcSound;
      hide CountsOk;
      ghost var before := flows;
      HeldHasRefs(flows, table, emc[..], simple, pending, marked, f);
      EnqueuedRefs(flows, table, emc[..], simple, pending, marked, f);
      flows := Ref(flows, f);
      pending := pending + [f];
      RefsOnly(host, before, flows, table, emc[..], simple, nFlows, nSimple);
    }

    /** dp_netdev_pmd_remove_flow(). */
    method RemoveFlow(f: FlowId, offload: bool)
      requires Valid() && f in table
      modifies this
      ensures Valid() && table == old(table) - {f} && simple == old(simple) - {f} && marked == old(marked)
      ensures flows.Keys == old(flows.Keys) && f in flows && flows[f].dead && flows[f].match_ == old(flows)[f].match_
      ensures forall g <- flows :: g != f ==> SameFlow(old(flows)[g], flows[g])
      ensures pending == if offload then old(pending) + [f] else old(pending)
    {
      hide RefsExact;
      hide TablesOk;
      hide EmcSound;
      hide CountsOk;
      hide Count;
      ghost var before, was := flows, simple;
      HeldHasRefs(flows, table, emc[..], simple, pending, marked, f);
      SimpleRemove(f);
      ghost var middle := flows;
      RemovedOk(host, before, flows, table, emc[..], was, pending, marked, nFlows, nSimple, f, offload);
      table := table - {f};
      nFlows := Bumped(nFlows, flows[f].match_.inPort, -1);
      if offload {
        flows := Ref(flows, f);
        pending := pending + [f];
      }
      flows := flows[f := flows[f].(dead := true)];
      flows := Unref(flows, f);
      assert flows == middle[f := Flow(middle[f].match_, true, flows[f].refs)];
    }

    /** The end of a grace period: the memory of a flow without references is given back.  Nobody holds it. */
    method Reclaim(f: FlowId)
      requires Valid() && f in flows && flows[f].refs == 0
      modifies this
      ensures Valid() && flows == old(flows) - {f}
      ensures table == old(table) && simple == old(simple) && pending == old(pending) && marked == old(marked)
      ensures f !in table && f !in simple && f !in pending && f !in marked
      ensures forall i :: 0 <= i < emc.Length ==> emc[i].flow != Some(f)
    {
      OccursNone(pending, f);
      EmcCountNone(emc[..], f);
      assert Holders(f, table, emc[..], simple, pending, marked) == 0;
      ReclaimedOk(host, flows, table, emc[..], simple, pending, marked, nFlows, nSimple, f);
      hide RefsExact;
      hide TablesOk;
      hide EmcSound;
      hide CountsOk;
      flows := flows - {f};
    }

    // -------------------------------------------------------------- offload items

    /** An offload thread finishes item `i`: it associates the flow with a mark or disassociates it or leaves it, and
        frees the item (see module OffloadMarks for which).  With several offload threads any item may be next. */
    method FinishItem(i: nat, associate: bool, disassociate: bool)
      requires Valid() && i < |pending|
      requires associate ==> pending[i] !in marked
      requires disassociate ==> pending[i] in marked
      modifies this
      ensures Valid() && pending == RemoveAt(old(pending), i) && table == old(table) && simple == old(simple)
      ensures marked == if associate then old(marked) + {old(pending)[i]}
                        else if disassociate then old(marked) - {old(pending)[i]} else old(marked)
      ensures flows.Keys == old(flows.Keys) && forall g <- flows :: SameFlow(old(flows)[g], flows[g])
    {
      hide RefsExact;
      hide TablesOk;
      hide EmcSound;
      hide CountsOk;
      hide RemoveAt;
      var f := pending[i];
      ghost var before := flows;
      HeldHasRefs(flows, table, emc[..], simple, pending, marked, f);
      FinishedRefs(flows, table, emc[..], simple, pending, marked, i, associate, disassociate);
      if associate {
        flows := Ref(flows, f);
        marked := marked + {f};
      } else if disassociate {
        marked := marked - {f};
        flows := Unref(flows, f);
      }
      flows := Unref(flows, f);
      pending := RemoveAt(pending, i);
      assert flows == before[f := before[f].(refs := flows[f].refs)];
      RefsOnly(host, before, flows, table, emc[..], simple, nFlows, nSimple);
    }

    // -------------------------------------------------------------- exact match cache

    /** emc_lookup(): an entry with this key and hash whose flow is alive.  `pos` are the positions for the hash. */
    method EmcLookup(k: Key, hash: nat, pos: seq<nat>) returns (r: Option<FlowId>)
      requires Valid() && Within(pos, emc.Length)
      ensures r.Some? ==> IsScan(k, r)
      ensures EmcAnswers(emc[..], flows, k, hash, pos, r)
    {
      for n := 0 to |pos|
        invariant forall j :: 0 <= j < n ==> !LiveKey(emc[pos[j]], flows, k, hash)
      {
        var e := emc[pos[n]];
        assert e in emc[..];
        if e.hash == hash && e.key == Some(k) && e.flow.Some? && e.flow.value in flows && !flows[e.flow.value].dead {
          return e.flow;
        }
      }
      return None;
    }

    /** emc_change_entry(): drops the reference to the old flow and takes one to the new, unless that is already
        released.  Without `key` the entry keeps its key. */
    method EmcChange(i: nat, f: FlowId, key: Option<(Key, nat)>)
      requires Valid() && i < emc.Length && f in flows
      requires match key
               case Some(k) => Matches(flows[f].match_, k.0)
               case None => emc[i].key.Some? && Matches(flows[f].match_, emc[i].key.value)
      modifies this`flows, emc
      ensures Valid()
      ensures flows.Keys == old(flows.Keys) && forall g <- flows :: SameFlow(old(flows)[g], flows[g])
      ensures emc[..] == old(emc[..])[i := emc[i]]
      ensures emc[i].flow == if old(emc[i].flow) == Some(f) || old(flows)[f].refs > 0 then Some(f) else None
      ensures key.Some? ==> emc[i].key == Some(key.value.0) && emc[i].hash == key.value.1
      ensures key.None? ==> emc[i].key == old(emc[i].key) && emc[i].hash == old(emc[i].hash)
    {
      hide RefsExact;
      hide TablesOk;
      hide EmcSound;
      hide CountsOk;
      hide Matches;
      ghost var before, entries := flows, emc[..];
      var e := emc[i];
      if e.flow.Some? {
        EmcHolds(flows, table, emc[..], simple, pending, marked, i);
      }
      if e.flow != Some(f) {
        if e.flow.Some? {
          flows := Unref(flows, e.flow.value);
        }
        if flows[f].refs > 0 {
          flows := Ref(flows, f);
          e := e.(flow := Some(f));
        } else {
          e := e.(flow := None);
        }
      }
      if key.Some? {
        e := e.(key := Some(key.value.0), hash := key.value.1);
      }
      emc[i] := e;
      assert emc[..] == entries[i := e];
      ChangedRefs(before, flows, table, entries, simple, pending, marked, i, e, f);
      RefsOnly(host, before, flows, table, entries, simple, nFlows, nSimple);
      ChangedSound(flows, entries, i, e);
    }

    /** emc_insert(): the entry that already has the key, or else the victim, gets the flow. */
    method EmcInsert(k: Key, hash: nat, f: FlowId, pos: seq<nat>) returns (ghost at: nat)
      requires Valid() && pos != [] && Within(pos, emc.Length)
      requires f in flows && Matches(flows[f].match_, k)
      modifies this`flows, emc
      ensures Valid()
      ensures flows.Keys == old(flows.Keys) && forall g <- flows :: SameFlow(old(flows)[g], flows[g])
      ensures at in pos && at < emc.Length && emc[..] == old(emc[..])[at := emc[at]]
      ensures emc[at].key == Some(k) && emc[at].hash == hash
      ensures emc[at].flow == if old(emc[at].flow) == Some(f) || old(flows)[f].refs > 0 then Some(f) else None
      ensures if old(HasKey(emc[at], k, hash)) then true
              else (forall j :: 0 <= j < |pos| ==> !old(HasKey(emc[pos[j]], k, hash))) &&
                   at == old(Victim(emc[..], flows, pos))
      ensures f in table ==> forall r :: EmcAnswers(emc[..], flows, k, hash, pos, r) ==> r == Some(f)
    {
      hide RefsExact;
      hide TablesOk;
      hide EmcSound;
      hide CountsOk;
      hide Matches;
      if f in table {
        HeldHasRefs(flows, table, emc[..], simple, pending, marked, f);
      }
      var victim := pos[0];
      for n := 0 to |pos|
        invariant victim in pos && victim < emc.Length
        invariant forall j :: 0 <= j < n ==> !HasKey(emc[pos[j]], k, hash)
        invariant n > 0 ==> victim == Victim(emc[..], flows, pos[..n])
        invariant flows == old(flows) && emc[..] == old(emc[..])
      {
        assert n > 0 ==> pos[..n + 1][..n] == pos[..n];
        if HasKey(emc[pos[n]], k, hash) {
          at := pos[n];
          EmcChange(pos[n], f, None);
          InsertedFound(k, hash, f, pos, at);
          return;
        }
        if n == 0 || Replaces(emc[pos[n]], emc[victim], flows) {
          victim := pos[n];
        }
      }
      assert pos[..|pos|] == pos;
      at := victim;
      EmcChange(victim, f, Some((k, hash)));
      InsertedFound(k, hash, f, pos, at);
    }

    /** A lookup of the key of a flow just inserted finds that flow: whatever other live flow an entry with the key
        might hold would match the packet too. */
    lemma InsertedFound(k: Key, hash: nat, f: FlowId, pos: seq<nat>, at: nat)
      requires Valid() && Within(pos, emc.Length) && at in pos && at < emc.Length
      requires HasKey(emc[at], k, hash) && (f in table ==> emc[at].flow == Some(f))
      ensures f in table ==> forall r :: EmcAnswers(emc[..], flows, k, hash, pos, r) ==> r == Some(f)
    {
    }

    /** Clearing an entry (done for entries of dead flows): drops the reference. */
    method EmcClear(i: nat)
      requires Valid() && i < emc.Length
      modifies this`flows, emc
      ensures Valid() && emc[..] == old(emc[..])[i := old(emc[i]).(flow := None)]
      ensures flows.Keys == old(flows.Keys) && forall g <- flows :: SameFlow(old(flows)[g], flows[g])
    {
      hide RefsExact;
      hide TablesOk;
      hide EmcSound;
      hide CountsOk;
      ghost var before, entries := flows, emc[..];
      var e := emc[i];
      if e.flow.Some? {
        EmcHolds(flows, table, emc[..], simple, pending, marked, i);
        flows := Unref(flows, e.flow.value);
        emc[i] := e.(flow := None);
        assert emc[..] == entries[i := e.(flow := None)];
        ClearedRefs(before, table, entries, simple, pending, marked, i, e.(flow := None));
        RefsOnly(host, before, flows, table, entries, simple, nFlows, nSimple);
        ChangedSound(flows, entries, i, e.(flow := None));
      } else {
        assert entries[i := e.(flow := None)] == entries;
      }
    }

    // -------------------------------------------------------------- signature match cache

    /** The match loop of smc_lookup_batch() and smc_lookup_single() over the chain of flows that the cached index
        points to by now: whatever flows of the table these are, only the right one is returned. */
    method SmcMatch(k: Key, chain: seq<FlowId>) returns (r: Option<FlowId>)
      requires Valid() && forall f <- chain :: f in table
      ensures r.Some? ==> IsScan(k, r)
      ensures r.None? ==> forall f <- chain :: f in flows ==> !Matches(flows[f].match_, k)
    {
      InFlows(host, flows, table, simple);
      for n := 0 to |chain|
        invariant forall j :: 0 <= j < n ==> !Matches(flows[chain[j]].match_, k)
      {
        var m := flows[chain[n]].match_;
        if RuleMatches(m, k) && m.inPort == k.inPort {
          return Some(chain[n]);
        }
      }
      return None;
    }

    // -------------------------------------------------------------- simple match as a full flow table

    /** The classification by simple match of a packet of port `k.inPort`, as done when all flows of the port are in the
        simple match table; right for plain packets if the flows of the port are exact. */
    method SimpleClassify(k: Key) returns (enabled: bool, r: Option<FlowId>)
      requires Valid()
      ensures enabled <==> |OnPort(flows, table, k.inPort)| == |OnPort(flows, simple, k.inPort)|
      ensures enabled ==> IsSimpleResult(host, flows, simple, k, r)
      ensures enabled && PlainPacket(host, k) && PortExact(host, flows, table, k.inPort) ==> IsScan(k, r)
    {
      InFlows(host, flows, table, simple);
      enabled := Count(nFlows, k.inPort) == Count(nSimple, k.inPort);
      r := None;
      if enabled {
        r := SimpleLookup(MarkOf(host, k.inPort, k.fields.l2));
        if PlainPacket(host, k) && PortExact(host, flows, table, k.inPort) {
          AllSimple(flows, table, simple, k.inPort);
          SimpleIsScan(host, flows, table, simple, k, r);
        }
      }
    }
  }

  // ---------------------------------------------------------------- lemmas on the EMC

  predicate Within(pos: seq<nat>, n: nat) {
    forall j :: 0 <= j < |pos| ==> pos[j] < n
  }

  predicate HasKey(e: EmcEntry, k: Key, hash: nat) {
    e.hash == hash && e.key == Some(k)
  }

  /** The entry has the key and hash, and a flow that is alive. */
  predicate LiveKey(e: EmcEntry, flows: map<FlowId, Flow>, k: Key, hash: nat) {
    HasKey(e, k, hash) && Alive(e, flows)
  }

  /** What a lookup may answer: a live flow that one of the entries holds for the key, and nothing only if none does. */
  ghost predicate EmcAnswers(entries: seq<EmcEntry>, flows: map<FlowId, Flow>, k: Key, hash: nat, pos: seq<nat>,
                             r: Option<FlowId>)
    requires Within(pos, |entries|)
  {
    if r.Some? then exists j :: 0 <= j < |pos| && LiveKey(entries[pos[j]], flows, k, hash) && entries[pos[j]].flow == r
    else forall j :: 0 <= j < |pos| ==> !LiveKey(entries[pos[j]], flows, k, hash)
  }

  /** emc_entry_alive(). */
  predicate Alive(e: EmcEntry, flows: map<FlowId, Flow>) {
    e.flow.Some? && e.flow.value in flows && !flows[e.flow.value].dead
  }

  /** The condition under which `e` takes the place of `best` as the entry to be replaced. */
  predicate Replaces(e: EmcEntry, best: EmcEntry, flows: map<FlowId, Flow>) {
    (Alive(best, flows) && !Alive(e, flows)) || e.hash < best.hash
  }

  function Victim(entries: seq<EmcEntry>, flows: map<FlowId, Flow>, pos: seq<nat>): (v: nat)
    requires pos != [] && Within(pos, |entries|)
    ensures v in pos
  {
    var n := |pos| - 1;
    if n == 0 then pos[0]
    else
      var v := Victim(entries, flows, pos[..n]);
      if Replaces(entries[pos[n]], entries[v], flows) then pos[n] else v
  }

  /** The comment in emc_insert() promises an entry that is not alive if there is one.  With two positions the code
      keeps the promise exactly if the second entry does not have the smaller hash while being the live one. */
  lemma DeadVictimIff(entries: seq<EmcEntry>, flows: map<FlowId, Flow>, a: nat, b: nat)
    requires a < |entries| && b < |entries|
    requires !Alive(entries[a], flows) || !Alive(entries[b], flows)
    ensures !Alive(entries[Victim(entries, flows, [a, b])], flows) <==>
            !(Alive(entries[b], flows) && entries[b].hash < entries[a].hash)
  {
    assert [a, b][..1] == [a];
  }

  /** Among entries of which all are alive, or none is, it replaces the first of those with the least hash. */
  lemma {:induction false} VictimLeast(entries: seq<EmcEntry>, flows: map<FlowId, Flow>, pos: seq<nat>)
    returns (j: nat)
    requires pos != [] && Within(pos, |entries|)
    requires (forall i :: 0 <= i < |pos| ==> Alive(entries[pos[i]], flows)) ||
             forall i :: 0 <= i < |pos| ==> !Alive(entries[pos[i]], flows)
    ensures j < |pos| && FirstLeast(entries, pos, j) && Victim(entries, flows, pos) == pos[j]
  {
    var n := |pos| - 1;
    hide Alive;
    if n == 0 {
      j := 0;
    } else {
      j := VictimLeast(entries, flows, pos[..n]);
      LeastNext(entries, pos, j);
      hide FirstLeast;
      j := if entries[pos[n]].hash < entries[pos[j]].hash then n else j;
    }
  }

  lemma LeastNext(entries: seq<EmcEntry>, pos: seq<nat>, j: nat)
    requires |pos| > 1 && Within(pos, |entries|) && j < |pos| - 1
    requires FirstLeast(entries, pos[..|pos| - 1], j)
    ensures var n := |pos| - 1;
            FirstLeast(entries, pos, if entries[pos[n]].hash < entries[pos[j]].hash then n else j)
  {
    var n := |pos| - 1;
    assert forall i :: 0 <= i < n ==> pos[..n][i] == pos[i];
  }

  /** The entry at position `j` of `pos` is the first of least hash. */
  ghost predicate FirstLeast(entries: seq<EmcEntry>, pos: seq<nat>, j: nat)
    requires Within(pos, |entries|) && j < |pos|
  {
    forall i :: 0 <= i < |pos| ==>
      entries[pos[j]].hash <= entries[pos[i]].hash && (i < j ==> entries[pos[j]].hash < entries[pos[i]].hash)
  }

  /** So a live entry is replaced while the flow of the other is dead: the live one only has to come second and to have
      the smaller hash. */
  lemma LiveVictim(m: Match, k0: Key, k1: Key)
    ensures var flows := map[0 := Flow(m, true, 1), 1 := Flow(m, false, 2)];
            var entries := [EmcEntry(Some(k0), 7, Some(0)), EmcEntry(Some(k1), 5, Some(1))];
            !Alive(entries[0], flows) && Alive(entries[1], flows) && Victim(entries, flows, [0, 1]) == 1
  {
    assert [0, 1][..1] == [0];
  }

  lemma EmcHolds(flows: map<FlowId, Flow>, table: set<FlowId>, entries: seq<EmcEntry>, simple: set<FlowId>,
                 pending: seq<FlowId>, marked: set<FlowId>, i: nat)
    requires RefsExact(flows, table, entries, simple, pending, marked) && i < |entries| && entries[i].flow.Some?
    ensures entries[i].flow.value in flows && flows[entries[i].flow.value].refs > 0
  {
    hide Occurs;
    EmcCountNone(entries, entries[i].flow.value);
    assert Holders(entries[i].flow.value, table, entries, simple, pending, marked) > 0;
  }

  lemma ChangedRefs(before: map<FlowId, Flow>, flows: map<FlowId, Flow>, table: set<FlowId>, entries: seq<EmcEntry>,
                    simple: set<FlowId>, pending: seq<FlowId>, marked: set<FlowId>, i: nat, e: EmcEntry, f: FlowId)
    requires RefsExact(before, table, entries, simple, pending, marked) && i < |entries| && f in before
    requires entries[i].flow.Some? ==> entries[i].flow.value in before && before[entries[i].flow.value].refs > 0
    requires
      if entries[i].flow == Some(f) then e.flow == Some(f) && flows == before
      else
        var mid := if entries[i].flow.Some? then Unref(before, entries[i].flow.value) else before;
        if mid[f].refs > 0 then e.flow == Some(f) && flows == Ref(mid, f) else e.flow == None && flows == mid
    ensures RefsExact(flows, table, entries[i := e], simple, pending, marked)
  {
    hide Occurs;
    forall g: FlowId
      ensures EmcCount(entries[i := e], g) == EmcCount(entries, g)
              - One(entries[i].flow == Some(g)) + One(e.flow == Some(g))
    {
      EmcCountSet(entries, i, e, g);
    }
    hide EmcCount;
  }

  lemma ClearedRefs(before: map<FlowId, Flow>, table: set<FlowId>, entries: seq<EmcEntry>, simple: set<FlowId>,
                    pending: seq<FlowId>, marked: set<FlowId>, i: nat, e: EmcEntry)
    requires RefsExact(before, table, entries, simple, pending, marked) && i < |entries| && entries[i].flow.Some?
    requires entries[i].flow.value in before && before[entries[i].flow.value].refs > 0 && e.flow.None?
    ensures RefsExact(Unref(before, entries[i].flow.value), table, entries[i := e], simple, pending, marked)
  {
    hide Occurs;
    forall g: FlowId
      ensures EmcCount(entries[i := e], g) == EmcCount(entries, g)
              - One(entries[i].flow == Some(g)) + One(e.flow == Some(g))
    {
      EmcCountSet(entries, i, e, g);
    }
    hide EmcCount;
  }

  lemma ChangedSound(flows: map<FlowId, Flow>, entries: seq<EmcEntry>, i: nat, e: EmcEntry)
    requires EmcSound(flows, entries) && i < |entries|
    requires e.flow.Some? && e.flow.value in flows ==> e.key.Some? && Matches(flows[e.flow.value].match_, e.key.value)
    ensures EmcSound(flows, entries[i := e])
  {
    hide Matches;
    forall x <- entries[i := e]
      ensures x == e || x in entries
    {
    }
  }

  // ---------------------------------------------------------------- lemmas on simple match

  ghost predicate AllExact(h: Host, flows: map<FlowId, Flow>, table: set<FlowId>, p: Port) {
    forall f <- table :: f in flows && flows[f].match_.inPort == p ==> Exact(h, flows[f].match_)
  }

  /** The flows of the port are made of fields that packets can have. */
  ghost predicate AllReceivable(h: Host, flows: map<FlowId, Flow>, table: set<FlowId>, p: Port) {
    forall f <- table :: f in flows && flows[f].match_.inPort == p ==> Receivable(h, flows[f].match_.fields.l2)
  }

  ghost predicate PortExact(h: Host, flows: map<FlowId, Flow>, table: set<FlowId>, p: Port) {
    AllReceivable(h, flows, table, p) && AllExact(h, flows, table, p)
  }

  /** A result of the lookup by mark. */
  ghost predicate IsSimpleResult(h: Host, flows: map<FlowId, Flow>, simple: set<FlowId>, k: Key, r: Option<FlowId>) {
    match r
    case Some(f) => f in simple && f in flows && FlowMark(h, flows[f]) == MarkOf(h, k.inPort, k.fields.l2)
    case None => forall f <- simple :: f in flows ==> FlowMark(h, flows[f]) != MarkOf(h, k.inPort, k.fields.l2)
  }

  ghost predicate ScanResult(flows: map<FlowId, Flow>, table: set<FlowId>, k: Key, r: Option<FlowId>) {
    match r
    case Some(f) => f in table && f in flows && Matches(flows[f].match_, k)
    case None => forall f <- table :: f in flows ==> !Matches(flows[f].match_, k)
  }

  /** If as many flows of a port are in the simple match table as in the flow table, all of them are. */
  lemma AllSimple(flows: map<FlowId, Flow>, table: set<FlowId>, simple: set<FlowId>, p: Port)
    requires simple <= table && |OnPort(flows, table, p)| == |OnPort(flows, simple, p)|
    ensures OnPort(flows, table, p) == OnPort(flows, simple, p)
  {
    SubsetOfEqualSize(OnPort(flows, simple, p), OnPort(flows, table, p));
  }

  lemma SubsetOfEqualSize(a: set<FlowId>, b: set<FlowId>)
    requires a <= b && |a| == |b|
    ensures a == b
  {
    assert b == a + (b - a);
    assert |b| == |a| + |b - a|;
  }

  lemma SimpleIsScan(h: Host, flows: map<FlowId, Flow>, table: set<FlowId>, simple: set<FlowId>, k: Key,
                     r: Option<FlowId>)
    requires TablesOk(h, flows, table, simple) && OnPort(flows, table, k.inPort) == OnPort(flows, simple, k.inPort)
    requires PlainPacket(h, k) && PortExact(h, flows, table, k.inPort)
    requires IsSimpleResult(h, flows, simple, k, r)
    ensures ScanResult(flows, table, k, r)
  {
    match r
    case Some(f) =>
      SameMarkMatches(h, flows[f].match_, k);
    case None =>
      forall f <- table | f in flows
        ensures !Matches(flows[f].match_, k)
      {
        if Matches(flows[f].match_, k) {
          assert f in OnPort(flows, table, k.inPort);
          assert f in OnPort(flows, simple, k.inPort);
          ExactMatchesSameMark(h, flows[f].match_, k);
        }
      }
  }

  /** When simple match is enabled for a port, it answers as a full flow table scan for all plain packets of the port
      exactly if every flow of the port is exact. */
  lemma SimpleRightIffExact(h: Host, flows: map<FlowId, Flow>, table: set<FlowId>, simple: set<FlowId>, p: Port)
    requires TablesOk(h, flows, table, simple) && OnPort(flows, table, p) == OnPort(flows, simple, p)
    requires AllReceivable(h, flows, table, p)
    ensures AllExact(h, flows, table, p) <==>
            forall k: Key, r: Option<FlowId> | k.inPort == p && PlainPacket(h, k)
              && IsSimpleResult(h, flows, simple, k, r) ::
              ScanResult(flows, table, k, r)
  {
    hide *;
    if AllExact(h, flows, table, p) {
      forall k: Key, r: Option<FlowId> | k.inPort == p && PlainPacket(h, k) && IsSimpleResult(h, flows, simple, k, r)
        ensures ScanResult(flows, table, k, r)
      {
        SimpleIsScan(h, flows, table, simple, k, r);
      }
    } else {
      var k := InexactMissed(h, flows, table, simple, p);
      assert IsSimpleResult(h, flows, simple, k, None);
    }
  }

  /** A flow of the port that is not exact matches a plain packet for which the lookup by mark finds nothing. */
  lemma InexactMissed(h: Host, flows: map<FlowId, Flow>, table: set<FlowId>, simple: set<FlowId>, p: Port)
    returns (k: Key)
    requires TablesOk(h, flows, table, simple) && OnPort(flows, table, p) == OnPort(flows, simple, p)
    requires AllReceivable(h, flows, table, p) && !AllExact(h, flows, table, p)
    ensures k.inPort == p && PlainPacket(h, k) && IsSimpleResult(h, flows, simple, k, None)
    ensures !ScanResult(flows, table, k, None)
  {
    hide IsSimple;
    hide Exact;
    hide PlainPacket;
    hide NotRecirculated;
    hide MarkOf;
    hide Receivable;
    hide Missed;
    var f :| f in table && f in flows && flows[f].match_.inPort == p && !Exact(h, flows[f].match_);
    assert f in OnPort(flows, simple, p);
    var m := flows[f].match_;
    MissedIsMatched(h, m);
    k := Key(p, Fields(Missed(h, m.fields.l2, m.mask.l2), m.fields.bits));
    forall g <- simple | g in flows
      ensures FlowMark(h, flows[g]) != MarkOf(h, k.inPort, k.fields.l2)
    {
      if FlowMark(h, flows[g]) == MarkOf(h, k.inPort, k.fields.l2) {
        SameMarkMatches(h, flows[g].match_, k);
      }
    }
    hide Matches;
  }

  lemma AddedOk(h: Host, flows: map<FlowId, Flow>, table: set<FlowId>, entries: seq<EmcEntry>, simple: set<FlowId>,
                pending: seq<FlowId>, marked: set<FlowId>, nFlows: map<Port, nat>, nSimple: map<Port, nat>, f: FlowId,
                m: Match)
    requires RefsExact(flows, table, entries, simple, pending, marked) && TablesOk(h, flows, table, simple)
    requires EmcSound(flows, entries) && CountsOk(flows, table, nFlows) && CountsOk(flows, simple, nSimple)
    requires f !in flows && forall g <- table :: g in flows ==> Disjoint(m, flows[g].match_)
    ensures var flows' := flows[f := Flow(m, false, 1)];
            && RefsExact(flows', table + {f}, entries, simple, pending, marked)
            && TablesOk(h, flows', table + {f}, simple)
            && EmcSound(flows', entries) && CountsOk(flows', table + {f}, Bumped(nFlows, m.inPort, 1))
            && CountsOk(flows', simple, nSimple)
  {
    var flows' := flows[f := Flow(m, false, 1)];
    AddedRefs(flows, table, entries, simple, pending, marked, f, m);
    AddedTables(h, flows, table, simple, f, m);
    AddedSound(flows, table, entries, simple, pending, marked, f, m);
    assert f !in table && f !in simple;
    hide RefsExact;
    hide TablesOk;
    hide EmcSound;
    AddedCounts(flows, flows', table, nFlows, f);
    AddedCounts(flows, flows', simple, nSimple, f);
    CountsAdded(flows', table, nFlows, f);
  }

  lemma AddedRefs(flows: map<FlowId, Flow>, table: set<FlowId>, entries: seq<EmcEntry>, simple: set<FlowId>,
                  pending: seq<FlowId>, marked: set<FlowId>, f: FlowId, m: Match)
    requires RefsExact(flows, table, entries, simple, pending, marked) && f !in flows
    ensures RefsExact(flows[f := Flow(m, false, 1)], table + {f}, entries, simple, pending, marked)
  {
    hide EmcCount;
    hide Occurs;
    assert Holders(f, table, entries, simple, pending, marked) == 0;
  }

  lemma AddedTables(h: Host, flows: map<FlowId, Flow>, table: set<FlowId>, simple: set<FlowId>, f: FlowId, m: Match)
    requires TablesOk(h, flows, table, simple) && f !in flows
    requires forall g <- table :: g in flows ==> Disjoint(m, flows[g].match_)
    ensures TablesOk(h, flows[f := Flow(m, false, 1)], table + {f}, simple)
  {
    hide IsSimple;
    forall g <- table
      ensures Disjoint(m, flows[g].match_) && Disjoint(flows[g].match_, m)
    {
    }
    hide Disjoint;
  }

  lemma AddedSound(flows: map<FlowId, Flow>, table: set<FlowId>, entries: seq<EmcEntry>, simple: set<FlowId>,
                   pending: seq<FlowId>, marked: set<FlowId>, f: FlowId, m: Match)
    requires RefsExact(flows, table, entries, simple, pending, marked) && f !in flows && EmcSound(flows, entries)
    ensures EmcSound(flows[f := Flow(m, false, 1)], entries)
  {
    hide EmcCount;
    hide Matches;
    assert Holders(f, table, entries, simple, pending, marked) == 0;
    EmcCountNone(entries, f);
  }

  lemma AddedCounts(flows: map<FlowId, Flow>, flows': map<FlowId, Flow>, s: set<FlowId>, counts: map<Port, nat>,
                    f: FlowId)
    requires CountsOk(flows, s, counts) && f !in s && flows'.Keys == flows.Keys + {f}
    requires forall g <- flows :: g != f ==> flows'[g] == flows[g]
    ensures CountsOk(flows', s, counts)
  {
    forall p
      ensures OnPort(flows', s, p) == OnPort(flows, s, p)
    {
    }
  }

  lemma EnqueuedRefs(flows: map<FlowId, Flow>, table: set<FlowId>, entries: seq<EmcEntry>, simple: set<FlowId>,
                     pending: seq<FlowId>, marked: set<FlowId>, f: FlowId)
    requires RefsExact(flows, table, entries, simple, pending, marked) && f in flows
    ensures RefsExact(Ref(flows, f), table, entries, simple, pending + [f], marked)
  {
    hide EmcCount;
    hide Occurs;
    forall g
      ensures Occurs(pending + [f], g) == Occurs(pending, g) + One(f == g)
    {
      OccursSnoc(pending, f, g);
    }
  }

  /** Only reference counts change. */
  lemma RefsOnly(h: Host, a: map<FlowId, Flow>, b: map<FlowId, Flow>, table: set<FlowId>, entries: seq<EmcEntry>,
                 simple: set<FlowId>, nFlows: map<Port, nat>, nSimple: map<Port, nat>)
    requires a.Keys == b.Keys && forall f <- a :: SameFlow(a[f], b[f])
    requires TablesOk(h, a, table, simple) && EmcSound(a, entries) && CountsOk(a, table, nFlows)
    requires CountsOk(a, simple, nSimple)
    ensures TablesOk(h, b, table, simple) && EmcSound(b, entries) && CountsOk(b, table, nFlows)
    ensures CountsOk(b, simple, nSimple)
  {
    hide TablesOk;
    hide EmcSound;
    hide CountsOk;
    RefTablesOk(h, a, b, table, simple);
    RefEmcSound(a, b, entries);
    CountsSameMatches(a, b, table, nFlows);
    CountsSameMatches(a, b, simple, nSimple);
  }

  /** The flow table without `f`: everything still holds with one reference less, counting the one of an offload item
      if there is one. */
  lemma RemovedOk(h: Host, before: map<FlowId, Flow>, middle: map<FlowId, Flow>, table: set<FlowId>,
                  entries: seq<EmcEntry>, simple: set<FlowId>, pending: seq<FlowId>, marked: set<FlowId>,
                  nFlows: map<Port, nat>, nSimple: map<Port, nat>, f: FlowId, offload: bool)
    requires RefsExact(before, table, entries, simple, pending, marked) && TablesOk(h, before, table, simple)
    requires EmcSound(before, entries) && CountsOk(before, table, nFlows) && CountsOk(middle, simple - {f}, nSimple)
    requires f in table && f in before && before[f].refs > 0
    requires middle == if f in simple then Unref(before, f) else before
    ensures Count(nFlows, before[f].match_.inPort) > 0
    ensures var refs := middle[f].refs + (if offload then 1 else 0);
            refs > 0
    ensures var refs := middle[f].refs + (if offload then 1 else 0);
            var flows := middle[f := Flow(middle[f].match_, true, refs - 1)];
            && RefsExact(flows, table - {f}, entries, simple - {f}, if offload then pending + [f] else pending, marked)
            && TablesOk(h, flows, table - {f}, simple - {f}) && EmcSound(flows, entries)
            && CountsOk(flows, table - {f}, Bumped(nFlows, middle[f].match_.inPort, -1))
                 && CountsOk(flows, simple - {f}, nSimple)
  {
    hide RefsExact;
    hide TablesOk;
    hide EmcSound;
    hide CountsOk;
    hide Count;
    RemovedRefs(before, middle, table, entries, simple, pending, marked, f, offload);
    CountsRemoved(before, table, nFlows, f);
    var flows := middle[f := Flow(middle[f].match_, true, middle[f].refs + (if offload then 1 else 0) - 1)];
    CountsSameMatches(before, flows, table - {f}, Bumped(nFlows, middle[f].match_.inPort, -1));
    CountsSameMatches(middle, flows, simple - {f}, nSimple);
    RemovedTables(h, before, flows, table, simple, f);
    MatchesEmcSound(before, flows, entries);
  }

  lemma RemovedRefs(before: map<FlowId, Flow>, middle: map<FlowId, Flow>, table: set<FlowId>, entries: seq<EmcEntry>,
                    simple: set<FlowId>, pending: seq<FlowId>, marked: set<FlowId>, f: FlowId, offload: bool)
    requires RefsExact(before, table, entries, simple, pending, marked) && f in table && f in before
    requires before[f].refs > 0
    requires middle == if f in simple then Unref(before, f) else before
    ensures var refs := middle[f].refs + (if offload then 1 else 0);
            refs > 0 && RefsExact(middle[f := Flow(middle[f].match_, true, refs - 1)], table - {f}, entries,
                                  simple - {f}, if offload then pending + [f] else pending, marked)
  {
    hide EmcCount;
    hide Occurs;
    forall g
      ensures Occurs(pending + [f], g) == Occurs(pending, g) + One(f == g)
    {
      OccursSnoc(pending, f, g);
    }
    assert before[f].refs == Holders(f, table, entries, simple, pending, marked);
  }

  lemma RemovedTables(h: Host, before: map<FlowId, Flow>, flows: map<FlowId, Flow>, table: set<FlowId>,
                      simple: set<FlowId>, f: FlowId)
    requires TablesOk(h, before, table, simple) && f in table && before.Keys == flows.Keys
    requires f in flows && flows[f].dead && forall g <- before :: g != f ==> SameFlow(before[g], flows[g])
    ensures TablesOk(h, flows, table - {f}, simple - {f})
  {
    hide IsSimple;
    hide Disjoint;
  }

  lemma MatchesEmcSound(a: map<FlowId, Flow>, b: map<FlowId, Flow>, entries: seq<EmcEntry>)
    requires EmcSound(a, entries) && a.Keys == b.Keys && forall f <- a :: a[f].match_ == b[f].match_
    ensures EmcSound(b, entries)
  {
    hide Matches;
  }

  lemma ReclaimedOk(h: Host, flows: map<FlowId, Flow>, table: set<FlowId>, entries: seq<EmcEntry>, simple: set<FlowId>,
                    pending: seq<FlowId>, marked: set<FlowId>, nFlows: map<Port, nat>, nSimple: map<Port, nat>,
                    f: FlowId)
    requires RefsExact(flows, table, entries, simple, pending, marked) && TablesOk(h, flows, table, simple)
    requires EmcSound(flows, entries) && CountsOk(flows, table, nFlows) && CountsOk(flows, simple, nSimple)
    requires Holders(f, table, entries, simple, pending, marked) == 0
    ensures RefsExact(flows - {f}, table, entries, simple, pending, marked) && TablesOk(h, flows - {f}, table, simple)
    ensures EmcSound(flows - {f}, entries) && CountsOk(flows - {f}, table, nFlows)
    ensures CountsOk(flows - {f}, simple, nSimple)
  {
    hide EmcCount;
    hide Occurs;
    hide IsSimple;
    hide Disjoint;
    hide Matches;
    assert f !in table && f !in simple;
    forall p
      ensures OnPort(flows - {f}, table, p) == OnPort(flows, table, p)
      ensures OnPort(flows - {f}, simple, p) == OnPort(flows, simple, p)
    {
    }
  }

  lemma FinishedRefs(flows: map<FlowId, Flow>, table: set<FlowId>, entries: seq<EmcEntry>, simple: set<FlowId>,
                     pending: seq<FlowId>, marked: set<FlowId>, i: nat, associate: bool, disassociate: bool)
    requires RefsExact(flows, table, entries, simple, pending, marked) && i < |pending| && pending[i] in flows
    requires associate ==> pending[i] !in marked
    requires disassociate ==> pending[i] in marked
    ensures flows[pending[i]].refs >= 1 && (!associate && disassociate ==> flows[pending[i]].refs >= 2)
    ensures var f := pending[i];
            var refs := flows[f].refs - if associate then 0 else if disassociate then 2 else 1;
            refs >= 0 && RefsExact(flows[f := flows[f].(refs := refs)], table, entries, simple, RemoveAt(pending, i),
              if associate then marked + {f} else if disassociate then marked - {f} else marked)
  {
    hide EmcCount;
    hide RemoveAt;
    var f := pending[i];
    assert flows[f].refs == Holders(f, table, entries, simple, pending, marked);
    forall g: FlowId
      ensures Occurs(pending, g) == One(f == g) + Occurs(RemoveAt(pending, i), g)
    {
      OccursRemoveAt(pending, i, g);
    }
    hide Occurs;
  }

  lemma {:induction false} OccursRemoveAt(s: seq<FlowId>, i: nat, f: FlowId)
    requires i < |s|
    ensures Occurs(s, f) == One(s[i] == f) + Occurs(RemoveAt(s, i), f)
  {
    if i == 0 {
      assert RemoveAt(s, 0) == s[1..];
    } else {
      OccursRemoveAt(s[1..], i - 1, f);
      assert RemoveAt(s, i)[1..] == RemoveAt(s[1..], i - 1);
    }
  }

  lemma InFlows(h: Host, flows: map<FlowId, Flow>, table: set<FlowId>, simple: set<FlowId>)
    requires TablesOk(h, flows, table, simple)
    ensures table <= flows.Keys && simple <= table
  {
  }

  lemma InsertedTables(h: Host, before: map<FlowId, Flow>, flows: map<FlowId, Flow>, table: set<FlowId>,
                       simple: set<FlowId>, f: FlowId)
    requires TablesOk(h, before, table, simple) && f in table && f in before && IsSimple(h, before[f].match_)
    requires before.Keys == flows.Keys && forall g <- before :: SameFlow(before[g], flows[g])
    ensures TablesOk(h, flows, table, simple + {f})
  {
    hide IsSimple;
    hide Disjoint;
  }

  // ---------------------------------------------------------------- references

  function Ref(flows: map<FlowId, Flow>, f: FlowId): map<FlowId, Flow>
    requires f in flows
  {
    flows[f := flows[f].(refs := flows[f].refs + 1)]
  }

  function Unref(flows: map<FlowId, Flow>, f: FlowId): map<FlowId, Flow>
    requires f in flows && flows[f].refs > 0
  {
    flows[f := flows[f].(refs := flows[f].refs - 1)]
  }

  predicate SameFlow(a: Flow, b: Flow) {
    a.match_ == b.match_ && a.dead == b.dead
  }

  function FlowMark(h: Host, f: Flow): bv64 {
    MarkOf(h, f.match_.inPort, f.match_.fields.l2)
  }

  function Bumped(m: map<Port, nat>, p: Port, d: int): map<Port, nat>
    requires Count(m, p) + d >= 0
  {
    m[p := Count(m, p) + d]
  }

  /** Disjoint simple flows have different marks, so the lookup by mark finds the one. */
  lemma OneByMark(h: Host, flows: map<FlowId, Flow>, table: set<FlowId>, simple: set<FlowId>, f: FlowId,
                  found: Option<FlowId>)
    requires TablesOk(h, flows, table, simple) && f in simple
    requires found.Some? ==> found.value in simple && FlowMark(h, flows[found.value]) == FlowMark(h, flows[f])
    requires found.None? ==> forall g <- simple :: FlowMark(h, flows[g]) != FlowMark(h, flows[f])
    ensures found == Some(f)
  {
    if found != Some(f) {
      SameMarkOverlap(h, flows[f].match_, flows[found.value].match_);
    }
  }

  lemma HeldHasRefs(flows: map<FlowId, Flow>, table: set<FlowId>, entries: seq<EmcEntry>, simple: set<FlowId>,
                    pending: seq<FlowId>, marked: set<FlowId>, f: FlowId)
    requires RefsExact(flows, table, entries, simple, pending, marked)
    requires f in table || f in simple || f in pending || f in marked
    ensures f in flows && flows[f].refs > 0
  {
    OccursNone(pending, f);
    assert Holders(f, table, entries, simple, pending, marked) > 0;
  }

  lemma RefTablesOk(h: Host, a: map<FlowId, Flow>, b: map<FlowId, Flow>, table: set<FlowId>, simple: set<FlowId>)
    requires TablesOk(h, a, table, simple) && a.Keys == b.Keys && forall f <- a :: SameFlow(a[f], b[f])
    ensures TablesOk(h, b, table, simple)
  {
    hide IsSimple;
    hide Disjoint;
  }

  lemma RefEmcSound(a: map<FlowId, Flow>, b: map<FlowId, Flow>, entries: seq<EmcEntry>)
    requires EmcSound(a, entries) && a.Keys == b.Keys && forall f <- a :: SameFlow(a[f], b[f])
    ensures EmcSound(b, entries)
  {
    hide Matches;
  }

  lemma CountsSameMatches(a: map<FlowId, Flow>, b: map<FlowId, Flow>, s: set<FlowId>, counts: map<Port, nat>)
    requires CountsOk(a, s, counts) && a.Keys == b.Keys && forall f <- a :: a[f].match_ == b[f].match_
    ensures CountsOk(b, s, counts)
  {
    forall p
      ensures OnPort(a, s, p) == OnPort(b, s, p)
    {
    }
  }

  lemma CountsRemoved(flows: map<FlowId, Flow>, s: set<FlowId>, counts: map<Port, nat>, f: FlowId)
    requires CountsOk(flows, s, counts) && f in s && f in flows
    ensures Count(counts, flows[f].match_.inPort) > 0
    ensures CountsOk(flows, s - {f}, Bumped(counts, flows[f].match_.inPort, -1))
  {
    var port := flows[f].match_.inPort;
    assert f in OnPort(flows, s, port);
    forall p
      ensures OnPort(flows, s - {f}, p) == if p == port then OnPort(flows, s, p) - {f} else OnPort(flows, s, p)
    {
    }
  }

  lemma CountsAdded(flows: map<FlowId, Flow>, s: set<FlowId>, counts: map<Port, nat>, f: FlowId)
    requires CountsOk(flows, s, counts) && f !in s && f in flows
    ensures CountsOk(flows, s + {f}, Bumped(counts, flows[f].match_.inPort, 1))
  {
    var port := flows[f].match_.inPort;
    assert f !in OnPort(flows, s, port);
    assert OnPort(flows, s + {f}, port) == OnPort(flows, s, port) + {f};
    forall p | p != port
      ensures OnPort(flows, s + {f}, p) == OnPort(flows, s, p)
    {
    }
    hide OnPort;
  }

  lemma InsertedRefs(before: map<FlowId, Flow>, flows: map<FlowId, Flow>, table: set<FlowId>, entries: seq<EmcEntry>,
                     simple: set<FlowId>, simple': set<FlowId>, pending: seq<FlowId>, marked: set<FlowId>, f: FlowId)
    requires RefsExact(before, table, entries, simple, pending, marked) && f in before && simple' == simple + {f}
    requires flows == if f in simple then Unref(Ref(before, f), f) else Ref(before, f)
    ensures RefsExact(flows, table, entries, simple', pending, marked)
  {
    hide EmcCount;
    hide Occurs;
  }
}
