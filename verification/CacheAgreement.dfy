/** A PMD thread with its flows, its caches and the classifiers of its ports: over every history, whatever a cache
    answers is what the classifier of the port answers at that moment. */
module CacheAgreement {
  import opened Base
  import opened FlowModel
  import opened SimpleMatch
  import D = Dpcls
  import F = FlowCaches

  /** The rules of the flows of a port. */
  ghost function RulesOf(flows: map<F.FlowId, F.Flow>, table: set<F.FlowId>, port: Port): set<D.Rule> {
    set f | f in table && f in flows && flows[f].match_.inPort == port :: D.Rule(f, flows[f].match_)
  }

  /** The classifier's answer is the flow that the cache answered. */
  ghost predicate SameAnswer(flows: map<F.FlowId, F.Flow>, cached: Option<F.FlowId>, rule: Option<D.Rule>) {
    match cached
    case Some(f) => f in flows && rule == Some(D.Rule(f, flows[f].match_))
    case None => rule == None
  }

  class Pmd {
    const caches: F.PmdFlows
    var classifiers: map<Port, D.Dpcls>

    /** Each port with flows has a classifier of its own, which holds exactly the rules of the port's flows. */
    ghost predicate Valid()
      reads this, caches, caches.emc, classifiers.Values
    {
      && caches.Valid()
      && (forall p, q :: p in classifiers && q in classifiers && p != q ==> classifiers[p] != classifiers[q])
      && (forall p <- classifiers :: classifiers[p].Valid())
      && (forall p <- classifiers :: classifiers[p].Rules() == RulesOf(caches.flows, caches.table, p))
      && (forall f <- caches.table :: f in caches.flows ==> caches.flows[f].match_.inPort in classifiers)
    }

    constructor (size: nat, host: Host)
      ensures Valid() && fresh(caches) && fresh(caches.emc) && caches.emc.Length == size && caches.host == host
      ensures caches.table == {} && classifiers == map[]
    {
      caches := new F.PmdFlows(size, host);
      classifiers := map[];
    }

    /** dp_netdev_pmd_find_dpcls(): the classifier of the port, a new one if there is none. */
    method FindDpcls(port: Port) returns (c: D.Dpcls)
      requires Valid()
      modifies this
      ensures Valid() && port in classifiers && c == classifiers[port]
      ensures forall p <- old(classifiers) :: p in classifiers && classifiers[p] == old(classifiers)[p]
      ensures classifiers.Keys == old(classifiers.Keys) + {port}
      ensures port !in old(classifiers) ==> fresh(c)
    {
      hide Disjoint;
      hide F.RefsExact;
      hide F.TablesOk;
      hide F.EmcSound;
      hide F.CountsOk;
      hide D.ValidSubtables;
      hide D.AllRules;
      if port in classifiers {
        return classifiers[port];
      }
      c := new D.Dpcls();
      NoRules(caches.flows, caches.table, port, classifiers.Keys);
      classifiers := classifiers[port := c];
    }

    /** dp_netdev_flow_add(). */
    method FlowAdd(f: F.FlowId, m: Match, offload: bool)
      requires Valid() && f !in caches.flows
      requires forall g <- caches.table :: g in caches.flows ==> Disjoint(m, caches.flows[g].match_)
      modifies this, caches, classifiers.Values
      ensures Valid() && caches.table == old(caches.table) + {f}
      ensures f in caches.flows && caches.flows[f].match_ == m && !caches.flows[f].dead
      ensures caches.simple == if IsSimple(caches.host, m) then old(caches.simple) + {f} else old(caches.simple)
      ensures caches.pending == if offload then old(caches.pending) + [f] else old(caches.pending)
      ensures forall p <- old(classifiers) :: p in classifiers && classifiers[p] == old(classifiers)[p]
      ensures forall p <- classifiers :: p !in old(classifiers) ==> fresh(classifiers[p])
    {
      hide RulesOf;
      hide Disjoint;
      hide IsSimple;
      hide F.RefsExact;
      hide F.TablesOk;
      hide F.EmcSound;
      hide F.CountsOk;
      hide D.ValidSubtables;
      hide D.AllRules;
      var _ := FindDpcls(m.inPort);
      InsertFlow(f, m, offload);
    }

    /** The rest of dp_netdev_flow_add(), with the classifier of the port at hand. */
    method InsertFlow(f: F.FlowId, m: Match, offload: bool)
      requires Valid() && f !in caches.flows && m.inPort in classifiers
      requires forall g <- caches.table :: g in caches.flows ==> Disjoint(m, caches.flows[g].match_)
      modifies caches, classifiers.Values
      ensures Valid() && caches.table == old(caches.table) + {f}
      ensures f in caches.flows && caches.flows[f].match_ == m && !caches.flows[f].dead
      ensures caches.simple == if IsSimple(caches.host, m) then old(caches.simple) + {f} else old(caches.simple)
      ensures caches.pending == if offload then old(caches.pending) + [f] else old(caches.pending)
    {
      hide RulesOf;
      hide Disjoint;
      hide IsSimple;
      hide F.RefsExact;
      hide F.TablesOk;
      hide F.EmcSound;
      hide F.CountsOk;
      hide D.ValidSubtables;
      hide D.AllRules;
      ghost var flows0, table0 := caches.flows, caches.table;
      classifiers[m.inPort].Insert(D.Rule(f, m));
      caches.FlowAdd(f, m, offload);
      forall p <- classifiers
        ensures classifiers[p].Rules() == RulesOf(caches.flows, caches.table, p)
      {
        AddedRule(flows0, table0, caches.flows, f, p);
      }
    }

    /** dp_netdev_pmd_remove_flow(). */
    method RemoveFlow(f: F.FlowId, offload: bool)
      requires Valid() && f in caches.table
      modifies caches, classifiers.Values
      ensures Valid() && caches.table == old(caches.table) - {f} && caches.simple == old(caches.simple) - {f}
      ensures f in caches.flows && caches.flows[f].dead
      ensures caches.pending == if offload then old(caches.pending) + [f] else old(caches.pending)
    {
      hide Disjoint;
      hide F.RefsExact;
      hide F.TablesOk;
      hide F.EmcSound;
      hide F.CountsOk;
      hide D.ValidSubtables;
      hide D.AllRules;
      F.InFlows(caches.host, caches.flows, caches.table, caches.simple);
      ghost var flows0, table0 := caches.flows, caches.table;
      var m := caches.flows[f].match_;
      assert D.Rule(f, m) in RulesOf(flows0, table0, m.inPort);
      classifiers[m.inPort].Remove(D.Rule(f, m));
      caches.RemoveFlow(f, offload);
      forall p <- classifiers
        ensures classifiers[p].Rules() == RulesOf(caches.flows, caches.table, p)
      {
        RemovedRule(flows0, table0, caches.flows, f, p);
      }
    }

    /** dpcls_sort_subtable_vector() for one port: the other classifiers stay as they are. */
    method Sort(port: Port) returns (ghost perm: seq<nat>)
      requires Valid() && port in classifiers
      modifies classifiers[port]
      ensures Valid() && D.Reordered(old(classifiers[port].subtables), classifiers[port].subtables, perm)
      ensures forall i, j :: 0 <= i < j < |perm| ==>
        old(classifiers[port].subtables)[perm[i]].hitCnt >= old(classifiers[port].subtables)[perm[j]].hitCnt
    {
      hide Disjoint;
      hide F.RefsExact;
      hide F.TablesOk;
      hide F.EmcSound;
      hide F.CountsOk;
      hide D.ValidSubtables;
      hide D.AllRules;
      hide D.Reordered;
      perm := classifiers[port].Sort();
    }

    /** The classifier's answers for packets of one port; without a classifier there are none. */
    method Lookup(port: Port, keys: seq<Key>, rules: array<Option<D.Rule>>)
      requires Valid() && keys != [] && rules.Length == |keys|
      modifies classifiers.Values, rules
      ensures Valid()
      ensures forall i :: 0 <= i < |keys| ==>
                D.IsScanResult(RulesOf(caches.flows, caches.table, port), keys[i], rules[i])
    {
      hide Disjoint;
      hide F.RefsExact;
      hide F.TablesOk;
      hide F.EmcSound;
      hide F.CountsOk;
      hide D.ValidSubtables;
      hide D.AllRules;
      hide RulesOf;
      if port in classifiers {
        var _, _ := classifiers[port].Lookup(keys, rules);
      } else {
        NoRules(caches.flows, caches.table, port, classifiers.Keys);
        for i := 0 to rules.Length
          invariant forall j :: 0 <= j < i ==> rules[j] == None
          invariant Valid()
        {
          rules[i] := None;
        }
      }
    }

    /** A packet looked up everywhere at the same moment: in the exact match cache (at the positions `pos` of its hash),
        in the chain that the signature match cache leads to, by its mark, and by the classifier.  Whatever a cache
        answers is the classifier's answer; and so is the answer by the mark, found or not, if simple match is enabled
        for the port, its flows are exact, and the packet is plain.  The caches miss only if they hold nothing that is
        right for the packet. */
    method Classify(k: Key, hash: nat, pos: seq<nat>, chain: seq<F.FlowId>)
      returns (emc: Option<F.FlowId>, smc: Option<F.FlowId>, enabled: bool, simple: Option<F.FlowId>,
               rule: Option<D.Rule>)
      requires Valid() && F.Within(pos, caches.emc.Length) && forall f <- chain :: f in caches.table
      modifies classifiers.Values
      ensures Valid()
      ensures D.IsScanResult(RulesOf(caches.flows, caches.table, k.inPort), k, rule)
      ensures emc.Some? ==> SameAnswer(caches.flows, emc, rule)
      ensures smc.Some? ==> SameAnswer(caches.flows, smc, rule)
      ensures F.EmcAnswers(caches.emc[..], caches.flows, k, hash, pos, emc)
      ensures smc.None? ==> forall f <- chain :: f in caches.flows ==> !Matches(caches.flows[f].match_, k)
      ensures enabled && PlainPacket(caches.host, k) &&
              F.PortExact(caches.host, caches.flows, caches.table, k.inPort) ==>
              SameAnswer(caches.flows, simple, rule)
    {
      hide Disjoint;
      hide F.RefsExact;
      hide F.EmcSound;
      hide F.CountsOk;
      hide D.ValidSubtables;
      hide D.AllRules;
      hide RulesOf;
      hide SameAnswer;
      emc := caches.EmcLookup(k, hash, pos);
      smc := caches.SmcMatch(k, chain);
      enabled, simple := caches.SimpleClassify(k);
      var rules := new Option<D.Rule>[1](_ => None);
      Lookup(k.inPort, [k], rules);
      rule := rules[0];
      assert [k][0] == k;
      Agrees(k, emc, rule);
      Agrees(k, smc, rule);
      Agrees(k, simple, rule);
    }

    lemma Agrees(k: Key, cached: Option<F.FlowId>, rule: Option<D.Rule>)
      requires Valid() && D.IsScanResult(RulesOf(caches.flows, caches.table, k.inPort), k, rule)
      ensures caches.IsScan(k, cached) ==> SameAnswer(caches.flows, cached, rule)
    {
      hide D.IsScanResult;
      hide F.ScanResult;
      hide RulesOf;
      hide SameAnswer;
      if caches.IsScan(k, cached) {
        ScansAgree(caches.host, caches.flows, caches.table, caches.simple, k, cached, rule);
      }
    }

    // -------------------------------------------------------------- steps that leave the flow table alone
    // (the methods of the same names in FlowCaches say the rest of what they do)

    method EmcInsert(k: Key, hash: nat, f: F.FlowId, pos: seq<nat>) returns (ghost at: nat)
      requires Valid() && pos != [] && F.Within(pos, caches.emc.Length)
      requires f in caches.flows && Matches(caches.flows[f].match_, k)
      modifies caches`flows, caches.emc
      ensures Valid() && caches.table == old(caches.table)
      ensures at in pos && at < caches.emc.Length && caches.emc[..] == old(caches.emc[..])[at := caches.emc[at]]
      ensures F.HasKey(caches.emc[at], k, hash)
      ensures caches.emc[at].flow ==
              if old(caches.emc[at].flow) == Some(f) || old(caches.flows)[f].refs > 0 then Some(f) else None
      ensures f in caches.table ==>
                forall r :: F.EmcAnswers(caches.emc[..], caches.flows, k, hash, pos, r) ==> r == Some(f)
    {
      hide Disjoint;
      hide F.RefsExact;
      hide F.TablesOk;
      hide F.EmcSound;
      hide F.CountsOk;
      hide D.ValidSubtables;
      hide D.AllRules;
      hide RulesOf;
      ghost var flows0 := caches.flows;
      at := caches.EmcInsert(k, hash, f, pos);
      RulesKept(flows0, caches.flows, caches.table);
    }

    method EmcClear(i: nat)
      requires Valid() && i < caches.emc.Length
      modifies caches`flows, caches.emc
      ensures Valid() && caches.table == old(caches.table)
      ensures caches.emc[..] == old(caches.emc[..])[i := old(caches.emc[i]).(flow := None)]
    {
      hide Disjoint;
      hide F.RefsExact;
      hide F.TablesOk;
      hide F.EmcSound;
      hide F.CountsOk;
      hide D.ValidSubtables;
      hide D.AllRules;
      hide RulesOf;
      ghost var flows0 := caches.flows;
      caches.EmcClear(i);
      RulesKept(flows0, caches.flows, caches.table);
    }

    method Enqueue(f: F.FlowId)
      requires Valid() && (f in caches.table || f in caches.marked)
      modifies caches
      ensures Valid() && caches.table == old(caches.table) && caches.pending == old(caches.pending) + [f]
    {
      hide Disjoint;
      hide F.RefsExact;
      hide F.TablesOk;
      hide F.EmcSound;
      hide F.CountsOk;
      hide D.ValidSubtables;
      hide D.AllRules;
      hide RulesOf;
      ghost var flows0 := caches.flows;
      caches.Enqueue(f);
      RulesKept(flows0, caches.flows, caches.table);
    }

    method FinishItem(i: nat, associate: bool, disassociate: bool)
      requires Valid() && i < |caches.pending|
      requires associate ==> caches.pending[i] !in caches.marked
      requires disassociate ==> caches.pending[i] in caches.marked
      modifies caches
      ensures Valid() && caches.table == old(caches.table) && caches.pending == RemoveAt(old(caches.pending), i)
      ensures caches.marked == if associate then old(caches.marked) + {old(caches.pending)[i]}
                               else if disassociate then old(caches.marked) - {old(caches.pending)[i]}
                               else old(caches.marked)
    {
      hide Disjoint;
      hide F.RefsExact;
      hide F.TablesOk;
      hide F.EmcSound;
      hide F.CountsOk;
      hide D.ValidSubtables;
      hide D.AllRules;
      hide RulesOf;
      ghost var flows0 := caches.flows;
      caches.FinishItem(i, associate, disassociate);
      RulesKept(flows0, caches.flows, caches.table);
    }

    method Reclaim(f: F.FlowId)
      requires Valid() && f in caches.flows && caches.flows[f].refs == 0
      modifies caches
      ensures Valid() && caches.table == old(caches.table) && caches.flows == old(caches.flows) - {f}
    {
      hide Disjoint;
      hide F.RefsExact;
      hide F.TablesOk;
      hide F.EmcSound;
      hide F.CountsOk;
      hide D.ValidSubtables;
      hide D.AllRules;
      hide RulesOf;
      ghost var flows0 := caches.flows;
      caches.Reclaim(f);
      RulesKept(flows0, caches.flows, caches.table);
    }
  }

  lemma RulesKept(flows: map<F.FlowId, F.Flow>, flows': map<F.FlowId, F.Flow>, table: set<F.FlowId>)
    requires forall f <- table :: f in flows <==> f in flows'
    requires forall f <- table :: f in flows ==> flows'[f].match_ == flows[f].match_
    ensures forall p :: RulesOf(flows', table, p) == RulesOf(flows, table, p)
  {
  }

  lemma NoRules(flows: map<F.FlowId, F.Flow>, table: set<F.FlowId>, port: Port, ports: set<Port>)
    requires port !in ports && forall f <- table :: f in flows ==> flows[f].match_.inPort in ports
    ensures RulesOf(flows, table, port) == {}
  {
  }

  /** Only the classifier of the new flow's port changes, by its rule. */
  lemma AddedRule(flows: map<F.FlowId, F.Flow>, table: set<F.FlowId>, flows': map<F.FlowId, F.Flow>, f: F.FlowId,
                  port: Port)
    requires f !in flows && f in flows' && flows'.Keys == flows.Keys + {f}
    requires forall g <- flows :: F.SameFlow(flows[g], flows'[g])
    ensures RulesOf(flows', table + {f}, port) ==
            RulesOf(flows, table, port) + if flows'[f].match_.inPort == port then {D.Rule(f, flows'[f].match_)} else {}
  {
    var before, after := RulesOf(flows, table, port), RulesOf(flows', table + {f}, port);
    forall r
      ensures r in after <==> r in before || (flows'[f].match_.inPort == port && r == D.Rule(f, flows'[f].match_))
    {
    }
  }

  lemma RemovedRule(flows: map<F.FlowId, F.Flow>, table: set<F.FlowId>, flows': map<F.FlowId, F.Flow>, f: F.FlowId,
                    port: Port)
    requires f in flows && flows'.Keys == flows.Keys && forall g <- flows :: flows[g].match_ == flows'[g].match_
    ensures RulesOf(flows', table - {f}, port) == RulesOf(flows, table, port) - {D.Rule(f, flows[f].match_)}
  {
    var before, after := RulesOf(flows, table, port), RulesOf(flows', table - {f}, port);
    forall r
      ensures r in after <==> r in before && r != D.Rule(f, flows[f].match_)
    {
    }
  }

  /** The rules of a port are disjoint, as the classifier needs. */
  lemma RulesDisjoint(h: Host, flows: map<F.FlowId, F.Flow>, table: set<F.FlowId>, simple: set<F.FlowId>, port: Port)
    requires F.TablesOk(h, flows, table, simple)
    ensures D.DisjointRules(RulesOf(flows, table, port))
  {
    forall a, b | a in RulesOf(flows, table, port) && b in RulesOf(flows, table, port) && a != b
      ensures RulesApart(a.match_, b.match_)
    {
      SamePortApart(a.match_, b.match_);
    }
  }

  /** A flow table scan and a scan of the rules of the port find the same flow. */
  lemma ScansAgree(h: Host, flows: map<F.FlowId, F.Flow>, table: set<F.FlowId>, simple: set<F.FlowId>, k: Key,
                   cached: Option<F.FlowId>, rule: Option<D.Rule>)
    requires F.TablesOk(h, flows, table, simple)
    requires F.ScanResult(flows, table, k, cached) && D.IsScanResult(RulesOf(flows, table, k.inPort), k, rule)
    ensures SameAnswer(flows, cached, rule)
  {
    var rules := RulesOf(flows, table, k.inPort);
    match cached
    case Some(f) =>
      RulesDisjoint(h, flows, table, simple, k.inPort);
      assert D.Rule(f, flows[f].match_) in rules;
      D.ScanUnique(rules, k, rule, Some(D.Rule(f, flows[f].match_)));
    case None =>
      if rule.Some? {
        assert Matches(flows[rule.value.flow].match_, k);
      }
  }
}
