/** The mapping of a vhost port's tx queues to queues that the guest has enabled. */
module TxRemap {
  const MAP_UNKNOWN: int := -1
  const DISABLED: int := -2

  /** The queues in use, if `n` are. */
  function Below(n: nat): (r: set<int>)
    ensures forall q :: q in r <==> 0 <= q < n
  {
    if n == 0 then {} else Below(n - 1) + {n - 1}
  }

  /** The number of queues other than `q` that are mapped to `q`. */
  function Redirected(map_: seq<int>, q: int): nat {
    if map_ == [] then 0
    else
      var i := |map_| - 1;
      Redirected(map_[..i], q) + if map_[i] == q && i != q then 1 else 0
  }

  /** An enabled queue maps to itself, any other to an enabled one, or to none if none is enabled. */
  ghost predicate MapsToEnabled(map_: seq<int>, enabled: set<int>) {
    forall i :: 0 <= i < |map_| ==>
      if i in enabled then map_[i] == i
      else if exists q <- enabled :: 0 <= q < |map_| then 0 <= map_[i] < |map_| && map_[i] in enabled
      else map_[i] == DISABLED
  }

  /** The redirected queues are shared out evenly. */
  ghost predicate Balanced(map_: seq<int>, enabled: set<int>) {
    forall a, b :: a in enabled && b in enabled && 0 <= a < |map_| && 0 <= b < |map_| ==>
      Redirected(map_, a) <= Redirected(map_, b) + 1
  }

  /** The port.  `txMap` is the map of each queue; there may be more queues than the `nTxq` in use.  `enabled` remembers
      the queues that were enabled last rather than disabled, `known` those that an event of the guest named, or that
      were mapped with the others, since the device came. */
  class VhostPort {
    const txMap: array<int>
    var nTxq: nat
    ghost var enabled: set<int>
    ghost var known: set<int>

    ghost predicate Valid()
      reads this, txMap
    {
      && 0 < txMap.Length && nTxq <= txMap.Length
      && (forall i :: 0 <= i < txMap.Length ==> (txMap[i] == i <==> i in enabled))
      && (forall i :: 0 <= i < txMap.Length ==> (txMap[i] == MAP_UNKNOWN <==> i !in known))
    }

    constructor (queues: nat)
      requires queues > 0
      ensures Valid() && fresh(txMap) && txMap.Length == queues && enabled == {} && known == {} && nTxq == 0
    {
      txMap := new int[queues](_ => MAP_UNKNOWN);
      nTxq, enabled, known := 0, {}, {};
    }

    /** The first half of netdev_dpdk_remap_txqs(): the queues to redirect to. */
    method EnabledQueues() returns (queues: array<int>, n: nat)
      requires Valid()
      ensures fresh(queues) && n <= queues.Length && TargetsOk(queues[..n], enabled, nTxq)
    {
      queues := new int[nTxq];
      n := 0;
      for i := 0 to nTxq
        invariant n <= i && FoundOk(queues[..n], enabled, i)
      {
        FoundNext(queues[..n], enabled, i);
        hide FoundOk;
        if txMap[i] == i {
          ghost var before := queues[..n];
          queues[n] := i;
          n := n + 1;
          assert queues[..n] == before + [i];
        }
      }
      if n == 0 && nTxq != 0 {
        queues[0] := DISABLED;
        n := 1;
        assert queues[..n] == [DISABLED];
      }
    }

    /** netdev_dpdk_remap_txqs(). */
    method RemapTxqs()
      requires Valid()
      modifies txMap, this`known
      ensures Valid() && known == old(known) + Below(nTxq)
      ensures MapsToEnabled(txMap[..nTxq], enabled) && Balanced(txMap[..nTxq], enabled)
      ensures forall i :: nTxq <= i < txMap.Length ==> txMap[i] == old(txMap[i])
    {
      hide TargetsOk;
      hide Shared;
      hide Redirected;
      hide Next;
      var queues, n := EnabledQueues();
      var k: nat := 0;
      ghost var rounds: nat := 0;
      ghost var targets := queues[..n];
      SharedStart(targets);
      TargetsDistinct(targets, enabled, nTxq);
      for i := 0 to nTxq
        invariant (k < n || nTxq == 0) && queues[..n] == targets
        invariant forall j :: 0 <= j < i ==> if j in enabled then txMap[j] == j
                  else txMap[j] in targets && txMap[j] != j
        invariant forall j :: i <= j < txMap.Length ==> txMap[j] == old(txMap[j])
        invariant Shared(txMap[..i], targets, rounds, k) && known == old(known)
      {
        SharedStep(txMap[..i], targets, rounds, k, i);
        ghost var before := txMap[..i];
        if txMap[i] != i {
          assert queues[k] == targets[k];
          txMap[i] := queues[k];
          NotTarget(targets, enabled, nTxq, k, i);
          rounds := if k + 1 == n then rounds + 1 else rounds;
          k := Next(k, n);
        }
        assert txMap[..i + 1] == before + [txMap[i]];
      }
      known := known + Below(nTxq);
      TargetsMap(targets, enabled, nTxq);
      Remapped(txMap[..nTxq], enabled, targets, rounds, k);
    }

    /** vring_state_changed() for a tx queue. */
    method VringStateChanged(qid: nat, enable: bool)
      requires Valid() && qid < txMap.Length
      modifies this`enabled, this`known, txMap
      ensures Valid() && enabled == if enable then old(enabled) + {qid} else old(enabled) - {qid}
      ensures known == old(known) + {qid} + Below(nTxq)
      ensures MapsToEnabled(txMap[..nTxq], enabled) && Balanced(txMap[..nTxq], enabled)
    {
      if enable {
        txMap[qid] := qid;
        enabled := enabled + {qid};
      } else {
        txMap[qid] := DISABLED;
        enabled := enabled - {qid};
      }
      known := known + {qid};
      RemapTxqs();
    }

    /** dpdk_vhost_reconfigure_helper(): a new number of queues in use; queue 0 is enabled if nothing is known of it. */
    method Reconfigure(n: nat)
      requires Valid() && n <= txMap.Length
      modifies this, txMap
      ensures Valid() && nTxq == n
      ensures enabled == if 0 !in old(known) then old(enabled) + {0} else old(enabled)
      ensures known == old(known) + {0} + Below(n)
      ensures MapsToEnabled(txMap[..nTxq], enabled) && Balanced(txMap[..nTxq], enabled)
    {
      nTxq := n;
      if txMap[0] == MAP_UNKNOWN {
        txMap[0] := 0;
        enabled, known := enabled + {0}, known + {0};
      }
      RemapTxqs();
    }

    /** netdev_dpdk_txq_map_clear(): the device is gone. */
    method TxqMapClear()
      requires Valid()
      modifies this`enabled, this`known, txMap
      ensures Valid() && enabled == old(enabled) - Below(nTxq)
      ensures known == old(known) - Below(nTxq)
    {
      for i := 0 to nTxq
        invariant forall j :: 0 <= j < i ==> txMap[j] == MAP_UNKNOWN
        invariant forall j :: i <= j < txMap.Length ==> txMap[j] == old(txMap[j])
        invariant enabled == old(enabled) && known == old(known)
      {
        txMap[i] := MAP_UNKNOWN;
      }
      enabled := enabled - Below(nTxq);
      known := known - Below(nTxq);
    }
  }

  /** Queue 0 is said to be enabled by default if it was not disabled.  That is not what happens: an event for another
      queue that comes first maps queue 0 with the others, and then it is not enabled, though no one has disabled it. */
  method QueueZeroLeftOut() returns (port: VhostPort)
    ensures port.Valid() && port.nTxq == 2 && port.enabled == {1} && port.txMap.Length == 2
  {
    port := new VhostPort(2);
    port.Reconfigure(2);
    port.TxqMapClear();
    port.VringStateChanged(1, true);
    port.Reconfigure(2);
  }

  /** The queues to redirect to: the enabled ones in order, or DISABLED. */
  ghost predicate TargetsOk(targets: seq<int>, enabled: set<int>, n: nat) {
    && (forall a, b :: 0 <= a < b < |targets| ==> targets[a] != targets[b])
    && (n > 0 ==> targets != [])
    && (forall q :: 0 <= q < n && q in enabled ==> q in targets)
    && ((forall t <- targets :: 0 <= t < n && t in enabled)
        || (targets == [DISABLED] && forall q :: 0 <= q < n ==> q !in enabled))
  }

  /** The enabled queues among the first `n`, in order. */
  ghost predicate FoundOk(found: seq<int>, enabled: set<int>, n: nat) {
    && (forall a, b :: 0 <= a < b < |found| ==> found[a] < found[b])
    && (forall q :: q in found <==> 0 <= q < n && q in enabled)
  }

  lemma FoundNext(found: seq<int>, enabled: set<int>, i: nat)
    requires FoundOk(found, enabled, i)
    ensures FoundOk(if i in enabled then found + [i] else found, enabled, i + 1)
  {
    if i in enabled {
      forall q: int
        ensures q in found + [i] <==> 0 <= q < i + 1 && q in enabled
      {
        assert q in found + [i] <==> q in found || q == i;
      }
      assert forall a :: 0 <= a < |found| ==> found[a] in found;
    }
  }

  function Next(k: nat, n: nat): nat
    requires n > 0
  {
    (k + 1) % n
  }

  /** The first `k` targets have one more redirected queue than the others. */
  ghost predicate Shared(map_: seq<int>, targets: seq<int>, rounds: nat, k: nat) {
    && (targets == [] ==> map_ == [])
    && forall j :: 0 <= j < |targets| ==> Redirected(map_, targets[j]) == rounds + if j < k then 1 else 0
  }

  lemma SharedStart(targets: seq<int>)
    ensures Shared([], targets, 0, 0)
  {
  }

  lemma RedirectedNext(map_: seq<int>, x: int, q: int)
    ensures Redirected(map_ + [x], q) == Redirected(map_, q) + if x == q && |map_| != q then 1 else 0
  {
    assert (map_ + [x])[..|map_|] == map_;
  }

  /** One more queue: mapped to itself, or to target `k`, which is not the queue itself. */
  lemma SharedStep(map_: seq<int>, targets: seq<int>, rounds: nat, k: nat, i: nat)
    requires Shared(map_, targets, rounds, k) && |map_| == i && k < |targets|
    requires forall a, b :: 0 <= a < b < |targets| ==> targets[a] != targets[b]
    ensures Shared(map_ + [i], targets, rounds, k) && Next(k, |targets|) < |targets|
    ensures targets[k] != i ==>
              Shared(map_ + [targets[k]], targets,
                     if k + 1 == |targets| then rounds + 1 else rounds, Next(k, |targets|))
  {
    forall j | 0 <= j < |targets|
      ensures Redirected(map_ + [i], targets[j]) == Redirected(map_, targets[j])
      ensures targets[k] != i ==>
                Redirected(map_ + [targets[k]], targets[j]) == Redirected(map_, targets[j]) + if j == k then 1 else 0
    {
      RedirectedNext(map_, i, targets[j]);
      RedirectedNext(map_, targets[k], targets[j]);
    }
    hide Redirected;
    hide Next;
    NextIs(k, |targets|);
  }

  lemma NextIs(k: nat, n: nat)
    requires k < n
    ensures Next(k, n) == if k + 1 == n then 0 else k + 1
  {
  }

  lemma TargetsDistinct(targets: seq<int>, enabled: set<int>, n: nat)
    requires TargetsOk(targets, enabled, n)
    ensures forall a, b :: 0 <= a < b < |targets| ==> targets[a] != targets[b]
    ensures n > 0 ==> targets != []
    ensures n == 0 ==> targets == [] || targets == [DISABLED]
  {
    if n == 0 && targets != [] {
      assert targets[0] in targets;
    }
  }

  /** A queue that is not enabled is no target. */
  lemma NotTarget(targets: seq<int>, enabled: set<int>, n: nat, k: nat, i: nat)
    requires TargetsOk(targets, enabled, n) && k < |targets| && i !in enabled
    ensures targets[k] != i && targets[k] in targets
  {
  }

  /** What is redirected to is known, and is no queue that is not enabled. */
  lemma TargetsMap(targets: seq<int>, enabled: set<int>, n: nat)
    requires TargetsOk(targets, enabled, n)
    ensures forall t <- targets :: t != MAP_UNKNOWN
  {
  }

  lemma Remapped(map_: seq<int>, enabled: set<int>, targets: seq<int>, rounds: nat, k: nat)
    requires TargetsOk(targets, enabled, |map_|) && Shared(map_, targets, rounds, k)
    requires forall j :: 0 <= j < |map_| ==> if j in enabled then map_[j] == j else map_[j] in targets
    ensures MapsToEnabled(map_, enabled) && Balanced(map_, enabled)
  {
    hide Redirected;
    forall a, b | a in enabled && b in enabled && 0 <= a < |map_| && 0 <= b < |map_|
      ensures Redirected(map_, a) <= Redirected(map_, b) + 1
    {
      assert a in targets && b in targets;
    }
  }
}
