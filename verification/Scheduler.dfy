/** The rx queue scheduler: which PMD thread polls which rx queue.

    `SchedNumaList` is the out-of-place copy of the PMD threads that the scheduler fills in.  Its
    methods follow the C functions step by step; the module `SchedulerBound` proves what the greedy
    "group" assignment is worth against every other assignment. */
module Scheduler {
  import opened Base

  datatype Algo = RoundRobin | Cycles | Group

  /** An rx queue: its port and queue id, the NUMA node of its port, the core it is pinned to (if
      any), and the processing cycles it consumed during the measured intervals. */
  datatype Rxq = Rxq(port: nat, qid: nat, numaId: int, pin: Option<nat>, cycles: u64)

  datatype SchedPmd = SchedPmd(core: nat, cycles: u64, rxqs: seq<Rxq>, isolated: bool)

  datatype SchedNuma = SchedNuma(numaId: int, pmds: seq<SchedPmd>, nIsolated: nat, cur: nat, inc: bool)

  // ---------------------------------------------------------------- cycles

  function SumCycles(qs: seq<Rxq>): nat {
    if qs == [] then 0 else SumCycles(qs[..|qs| - 1]) + qs[|qs| - 1].cycles
  }

  /** The cycles of the queues with at least `c` cycles. */
  function SumAtLeast(qs: seq<Rxq>, c: nat): nat {
    if qs == [] then 0
    else SumAtLeast(qs[..|qs| - 1], c) + if qs[|qs| - 1].cycles >= c then qs[|qs| - 1].cycles else 0
  }

  lemma {:induction false} SumAtLeastAll(qs: seq<Rxq>, c: nat)
    ensures SumAtLeast(qs, c) <= SumCycles(qs)
    ensures (forall q <- qs :: q.cycles == 0 || q.cycles >= c) ==> SumAtLeast(qs, c) == SumCycles(qs)
  {
    if qs != [] {
      SumAtLeastAll(qs[..|qs| - 1], c);
    }
  }

  /** The smallest nonzero cycle count among `qs`, 0 if every queue is idle. */
  function MinBusy(qs: seq<Rxq>): nat {
    if qs == [] then 0
    else
      var m, c := MinBusy(qs[..|qs| - 1]), qs[|qs| - 1].cycles;
      if c == 0 then m else if m == 0 || c < m then c else m
  }

  lemma {:induction false} MinBusyIsLeast(qs: seq<Rxq>)
    ensures MinBusy(qs) == 0 <==> forall q <- qs :: q.cycles == 0
    ensures MinBusy(qs) != 0 ==> exists q <- qs :: q.cycles == MinBusy(qs)
    ensures forall q <- qs :: q.cycles == 0 || MinBusy(qs) <= q.cycles
    ensures (SumCycles(qs) == 0 <==> MinBusy(qs) == 0) && MinBusy(qs) <= SumCycles(qs)
  {
    if qs != [] {
      var front, last := qs[..|qs| - 1], qs[|qs| - 1];
      MinBusyIsLeast(front);
      assert forall q <- qs :: q in front || q == last;
      assert last in qs && forall q <- front :: q in qs;
    }
  }

  lemma RemoveAtTakesOne(qs: seq<Rxq>, i: nat)
    requires i < |qs|
    ensures multiset(qs) == multiset(RemoveAt(qs, i)) + multiset{qs[i]}
  {
    assert qs == qs[..i] + [qs[i]] + qs[i + 1..];
  }

  lemma {:induction false} SumSplit(qs: seq<Rxq>, i: nat)
    requires i < |qs|
    ensures SumCycles(qs) == SumCycles(RemoveAt(qs, i)) + qs[i].cycles
  {
    var n := |qs| - 1;
    var cut := RemoveAt(qs, i);
    if i == n {
      assert cut == qs[..n];
    } else {
      SumSplit(qs[..n], i);
      assert cut[..n - 1] == RemoveAt(qs[..n], i);
    }
  }

  lemma MultisetDrop(a: multiset<Rxq>, b: multiset<Rxq>, q: Rxq)
    requires a + multiset{q} <= b + multiset{q}
    ensures a <= b
  {
    forall x
      ensures a[x] <= b[x]
    {
      assert (a + multiset{q})[x] <= (b + multiset{q})[x];
    }
  }

  /** The sum depends only on which queues are there, and grows with them. */
  lemma {:induction false} SubSum(a: seq<Rxq>, b: seq<Rxq>)
    requires multiset(a) <= multiset(b)
    ensures SumCycles(a) <= SumCycles(b)
  {
    if a != [] {
      var q := a[|a| - 1];
      var front := a[..|a| - 1];
      assert a == front + [q];
      assert q in multiset(a) && q in multiset(b);
      var i :| 0 <= i < |b| && b[i] == q;
      SumSplit(b, i);
      RemoveAtTakesOne(b, i);
      MultisetDrop(multiset(front), multiset(RemoveAt(b, i)), q);
      SubSum(front, RemoveAt(b, i));
    }
  }

  // ---------------------------------------------------------------- what is placed where

  function PmdsRxqs(pmds: seq<SchedPmd>): multiset<Rxq> {
    if pmds == [] then multiset{} else PmdsRxqs(pmds[..|pmds| - 1]) + multiset(pmds[|pmds| - 1].rxqs)
  }

  function ListRxqs(numas: seq<SchedNuma>): multiset<Rxq> {
    if numas == [] then multiset{} else ListRxqs(numas[..|numas| - 1]) + PmdsRxqs(numas[|numas| - 1].pmds)
  }

  lemma {:induction false} PmdsRxqsAdd(pmds: seq<SchedPmd>, i: nat, p: SchedPmd, q: Rxq)
    requires i < |pmds| && p.rxqs == pmds[i].rxqs + [q]
    ensures PmdsRxqs(pmds[i := p]) == PmdsRxqs(pmds) + multiset{q}
  {
    var n := |pmds| - 1;
    if i == n {
      assert pmds[i := p][..n] == pmds[..n];
    } else {
      PmdsRxqsAdd(pmds[..n], i, p, q);
      assert pmds[i := p][..n] == pmds[..n][i := p];
    }
  }

  /** Adding `extra` to what one node holds adds it to the list. */
  lemma {:induction false} ListRxqsReplace(numas: seq<SchedNuma>, j: nat, node: SchedNuma, extra: multiset<Rxq>)
    requires j < |numas| && PmdsRxqs(node.pmds) == PmdsRxqs(numas[j].pmds) + extra
    ensures ListRxqs(numas[j := node]) == ListRxqs(numas) + extra
  {
    var n := |numas| - 1;
    if j == n {
      assert numas[j := node][..n] == numas[..n];
    } else {
      ListRxqsReplace(numas[..n], j, node, extra);
      assert numas[j := node][..n] == numas[..n][j := node];
    }
  }

  lemma {:induction false} PmdRxqsWithin(pmds: seq<SchedPmd>, i: nat)
    requires i < |pmds|
    ensures multiset(pmds[i].rxqs) <= PmdsRxqs(pmds)
  {
    if i < |pmds| - 1 {
      PmdRxqsWithin(pmds[..|pmds| - 1], i);
    }
  }

  // ---------------------------------------------------------------- isolation

  function CountIso(pmds: seq<SchedPmd>): nat {
    if pmds == [] then 0 else CountIso(pmds[..|pmds| - 1]) + if pmds[|pmds| - 1].isolated then 1 else 0
  }

  ghost predicate HasNonIso(node: SchedNuma) {
    exists i :: 0 <= i < |node.pmds| && !node.pmds[i].isolated
  }

  /** The comparison the C code makes (`n_pmds > n_isolated`) is right as long as `n_isolated` is exact. */
  lemma {:induction false} CountIsoExact(pmds: seq<SchedPmd>)
    ensures CountIso(pmds) <= |pmds|
    ensures CountIso(pmds) < |pmds| <==> exists i :: 0 <= i < |pmds| && !pmds[i].isolated
  {
    if pmds != [] {
      var n := |pmds| - 1;
      CountIsoExact(pmds[..n]);
      assert forall i :: 0 <= i < n ==> pmds[..n][i] == pmds[i];
    }
  }

  lemma {:induction false} CountIsoUpdate(pmds: seq<SchedPmd>, i: nat, p: SchedPmd)
    requires i < |pmds|
    ensures CountIso(pmds[i := p]) ==
            CountIso(pmds) - (if pmds[i].isolated then 1 else 0) + (if p.isolated then 1 else 0)
  {
    var n := |pmds| - 1;
    if i == n {
      assert pmds[i := p][..n] == pmds[..n];
    } else {
      CountIsoUpdate(pmds[..n], i, p);
      assert pmds[i := p][..n] == pmds[..n][i := p];
    }
  }

  function NonIsoCount(node: SchedNuma): nat {
    if |node.pmds| > node.nIsolated then |node.pmds| - node.nIsolated else 0
  }

  /** The load counter of a PMD is the cycles of its queues, unless it has wrapped. */
  ghost predicate ExactLoad(p: SchedPmd) {
    SumCycles(p.rxqs) <= U64_MAX ==> p.cycles == SumCycles(p.rxqs)
  }

  ghost predicate ValidNode(node: SchedNuma) {
    && node.cur < |node.pmds|
    && node.nIsolated == CountIso(node.pmds)
    && forall i :: 0 <= i < |node.pmds| ==>
      ExactLoad(node.pmds[i])
  }

  lemma NonIsoCountExact(node: SchedNuma)
    requires ValidNode(node)
    ensures NonIsoCount(node) != 0 <==> HasNonIso(node)
  {
    CountIsoExact(node.pmds);
  }

  // ---------------------------------------------------------------- the round-robin walk

  /** How many further steps the walk needs before it stands on `t`.  The walk goes up to `n - 1` and
      then either turns (up-down) or wraps to 0; going down it turns at 0. */
  function StepsTo(cur: nat, inc: bool, t: nat, n: nat, updown: bool): int {
    if inc then
      if t >= cur then t - cur
      else if updown then (n - 1 - cur) + 1 + (n - 1 - t)
      else (n - cur) + t
    else if t <= cur then cur - t
    else cur + 1 + t
  }

  /** From every index and direction, `2 * n` calls are enough to meet every PMD. */
  lemma StepsToBound(cur: nat, inc: bool, t: nat, n: nat, updown: bool)
    requires cur < n && t < n
    ensures 0 <= StepsTo(cur, inc, t, n, updown) < 2 * n
    ensures StepsTo(cur, inc, t, n, updown) == 0 <==> t == cur
  {
  }

  /** How many PMDs before PMD `i` are not isolated. */
  function Rank(pmds: seq<SchedPmd>, i: nat): int
    requires i <= |pmds|
  {
    i - CountIso(pmds[..i])
  }

  /** Turn `t` among `m` in order: up and down again, or always from the first to the last. */
  function Turn(t: nat, m: nat, updown: bool): int
    requires m > 0
  {
    if updown && t / m % 2 == 1 then m - 1 - t % m else t % m
  }

  /** PMD `i` is the one whose turn it is after `t` turns. */
  predicate InTurn(pmds: seq<SchedPmd>, i: nat, t: nat, updown: bool)
    requires i < |pmds|
  {
    var m := Rank(pmds, |pmds|);
    m > 0 && !pmds[i].isolated && Rank(pmds, i) == Turn(t, m, updown)
  }

  /** The walk stands where it is after meeting `t` PMDs that are not isolated, having gone round `rounds` times. */
  predicate PhaseAt(node: SchedNuma, t: nat, rounds: nat, updown: bool)
    requires node.cur < |node.pmds|
  {
    var m := Rank(node.pmds, |node.pmds|);
    if updown then t == rounds * (2 * m) + if node.inc then Rank(node.pmds, node.cur)
                                          else 2 * m - Rank(node.pmds, node.cur + 1)
    else node.inc && t == rounds * m + Rank(node.pmds, node.cur)
  }

  ghost predicate InPhase(node: SchedNuma, t: nat, updown: bool) {
    node.cur < |node.pmds| && exists rounds: nat :: PhaseAt(node, t, rounds, updown)
  }

  lemma RankNext(pmds: seq<SchedPmd>, i: nat)
    requires i < |pmds|
    ensures Rank(pmds, i + 1) == Rank(pmds, i) + if pmds[i].isolated then 0 else 1
    ensures 0 <= Rank(pmds, i) && Rank(pmds, i + 1) <= Rank(pmds, |pmds|)
    ensures Rank(pmds, 0) == 0
  {
    assert pmds[..i + 1][..i] == pmds[..i];
    CountIsoExact(pmds[..i]);
    RankGrows(pmds, i + 1);
    hide CountIso;
  }

  lemma {:induction false} RankGrows(pmds: seq<SchedPmd>, i: nat)
    requires i <= |pmds|
    ensures Rank(pmds, i) <= Rank(pmds, |pmds|)
    decreases |pmds| - i
  {
    if i < |pmds| {
      assert pmds[..i + 1][..i] == pmds[..i];
      RankGrows(pmds, i + 1);
    }
  }

  lemma MulMono(a: nat, b: nat, m: nat)
    requires a <= b
    ensures a * m <= b * m
  {
    assert b * m == a * m + (b - a) * m;
  }

  lemma DivMod(x: nat, m: nat)
    requires m > 0
    ensures x == x / m * m + x % m && 0 <= x % m < m
  {
  }

  lemma DivUnique(x: nat, m: nat, r: nat, c: nat)
    requires c < m && x == r * m + c
    ensures x / m == r && x % m == c
  {
    DivMod(x, m);
    var q, d := x / m, x % m;
    hide *;
    if q < r {
      MulMono(q + 1, r, m);
    } else if r < q {
      MulMono(r + 1, q, m);
    }
  }

  lemma TurnUp(t: nat, m: nat, rounds: nat, c: nat)
    requires c < m && t == rounds * (2 * m) + c
    ensures Turn(t, m, true) == c
  {
    assert rounds * (2 * m) == 2 * rounds * m;
    DivUnique(t, m, 2 * rounds, c);
  }

  lemma TurnDown(t: nat, m: nat, rounds: nat, c: nat)
    requires c < m && t == rounds * (2 * m) + 2 * m - (c + 1)
    ensures Turn(t, m, true) == c
  {
    assert rounds * (2 * m) + m == (2 * rounds + 1) * m;
    DivUnique(t, m, 2 * rounds + 1, m - 1 - c);
  }

  /** A PMD that is not isolated and that the walk stands on has the rank of its turn. */
  lemma PhaseTurn(node: SchedNuma, t: nat, updown: bool)
    requires InPhase(node, t, updown) && !node.pmds[node.cur].isolated
    ensures InTurn(node.pmds, node.cur, t, updown)
  {
    var m := Rank(node.pmds, |node.pmds|);
    RankNext(node.pmds, node.cur);
    var c := Rank(node.pmds, node.cur);
    hide Rank;
    hide Turn;
    var rounds: nat :| PhaseAt(node, t, rounds, updown);
    if !updown {
      DivUnique(t, m, rounds, c);
      TurnWraps(t, m);
    } else if node.inc {
      TurnUp(t, m, rounds, c);
    } else {
      TurnDown(t, m, rounds, c);
    }
  }

  lemma TurnWraps(t: nat, m: nat)
    requires m > 0
    ensures Turn(t, m, false) == t % m
  {
  }

  /** One step of the walk: the next index and direction. */
  predicate Stepped(node: SchedNuma, cur: nat, inc: bool, updown: bool)
    requires node.cur < |node.pmds|
  {
    if node.inc then
      if node.cur < |node.pmds| - 1 then cur == node.cur + 1 && inc
      else if updown then cur == node.cur && !inc
      else cur == 0 && inc
    else if node.cur > 0 then cur == node.cur - 1 && !inc
    else cur == 0 && inc
  }

  lemma PhaseStep(node: SchedNuma, cur: nat, inc: bool, updown: bool, t: nat)
    requires InPhase(node, t, updown) && Stepped(node, cur, inc, updown)
    ensures InPhase(node.(cur := cur, inc := inc), t + if node.pmds[node.cur].isolated then 0 else 1, updown)
  {
    var m := Rank(node.pmds, |node.pmds|);
    var t' := t + if node.pmds[node.cur].isolated then 0 else 1;
    var node' := node.(cur := cur, inc := inc);
    RankNext(node.pmds, node.cur);
    RankNext(node.pmds, cur);
    hide Rank;
    var rounds: nat :| PhaseAt(node, t, rounds, updown);
    NextRound(rounds, m);
    if cur == 0 && inc {
      assert PhaseAt(node', t', rounds + 1, updown);
    } else {
      assert PhaseAt(node', t', rounds, updown);
    }
  }

  lemma NextRound(rounds: nat, m: int)
    ensures (rounds + 1) * (2 * m) == rounds * (2 * m) + 2 * m && (rounds + 1) * m == rounds * m + m
  {
  }

  // ---------------------------------------------------------------- the order of the queues

  predicate Before(a: Rxq, b: Rxq) {
    a.cycles > b.cycles || (a.cycles == b.cycles && (a.port < b.port || (a.port == b.port && a.qid <= b.qid)))
  }

  lemma BeforeTotal(a: Rxq, b: Rxq)
    ensures Before(a, b) || Before(b, a)
  {
  }

  predicate Sorted(qs: seq<Rxq>) {
    forall i, k :: 0 <= i < k < |qs| ==> Before(qs[i], qs[k])
  }

  /** By decreasing cycles, queues of the same cycles by port, and those of one port by queue id. */
  lemma SortedOrder(qs: seq<Rxq>, i: nat, k: nat)
    requires Sorted(qs) && i < k < |qs|
    ensures qs[i].cycles >= qs[k].cycles
    ensures qs[i].cycles == qs[k].cycles ==> qs[i].port <= qs[k].port
    ensures qs[i].cycles == qs[k].cycles && qs[i].port == qs[k].port ==> qs[i].qid <= qs[k].qid
  {
    assert Before(qs[i], qs[k]);
  }

  lemma InsertAtAddsOne(qs: seq<Rxq>, i: nat, q: Rxq)
    requires i <= |qs|
    ensures multiset(InsertAt(qs, i, q)) == multiset(qs) + multiset{q}
  {
    assert qs == qs[..i] + qs[i..];
  }

  lemma InsertKeepsSorted(qs: seq<Rxq>, i: nat, q: Rxq)
    requires i <= |qs| && Sorted(qs)
    requires i > 0 ==> Before(qs[i - 1], q)
    requires forall k :: i <= k < |qs| ==> Before(q, qs[k])
    ensures Sorted(InsertAt(qs, i, q))
  {
    forall k | 0 <= k < i
      ensures Before(qs[k], q)
    {
      assert Before(qs[k], qs[i - 1]) || k == i - 1;
    }
  }

  /** The order qsort() leaves behind under compare_rxq_cycles(). */
  method SortByCycles(qs: seq<Rxq>) returns (sorted: seq<Rxq>)
    ensures multiset(sorted) == multiset(qs)
    ensures Sorted(sorted)
  {
    hide Before;
    sorted := [];
    for n := 0 to |qs|
      invariant multiset(sorted) == multiset(qs[..n]) && |sorted| == n
      invariant Sorted(sorted)
    {
      var i := n;
      while i > 0 && !Before(sorted[i - 1], qs[n])
        invariant 0 <= i <= n
        invariant forall k :: i <= k < n ==> Before(qs[n], sorted[k])
      {
        BeforeTotal(sorted[i - 1], qs[n]);
        i := i - 1;
      }
      assert qs[..n + 1] == qs[..n] + [qs[n]];
      InsertKeepsSorted(sorted, i, qs[n]);
      InsertAtAddsOne(sorted, i, qs[n]);
      sorted := InsertAt(sorted, i, qs[n]);
    }
    assert qs[..|qs|] == qs;
  }

  // ---------------------------------------------------------------- where a queue may go

  ghost predicate HasCore(numas: seq<SchedNuma>, core: nat) {
    exists j, i :: 0 <= j < |numas| && 0 <= i < |numas[j].pmds| && numas[j].pmds[i].core == core
  }

  /** The queue asks for a core and a PMD thread runs there. */
  ghost predicate Pinnable(numas: seq<SchedNuma>, q: Rxq) {
    q.pin.Some? && HasCore(numas, q.pin.value)
  }

  /** The queues that cannot be pinned, in order. */
  ghost function Unpinned(numas: seq<SchedNuma>, qs: seq<Rxq>): seq<Rxq> {
    if qs == [] then []
    else
      var r := Unpinned(numas, qs[..|qs| - 1]);
      if Pinnable(numas, qs[|qs| - 1]) then r else r + [qs[|qs| - 1]]
  }

  /** The order in which they are placed: as received, or sorted. */
  ghost predicate Ordered(numas: seq<SchedNuma>, queues: seq<Rxq>, algo: Algo, order: seq<Rxq>) {
    if algo == RoundRobin then order == Unpinned(numas, queues)
    else Sorted(order) && multiset(order) == multiset(Unpinned(numas, queues))
  }

  ghost predicate SomeNonIso(numas: seq<SchedNuma>) {
    exists j :: 0 <= j < |numas| && HasNonIso(numas[j])
  }

  ghost predicate HasLocalNonIso(numas: seq<SchedNuma>, numaId: int) {
    exists j :: 0 <= j < |numas| && numas[j].numaId == numaId && HasNonIso(numas[j])
  }

  /** `q` sits rightly on `p`, a PMD of node `numaId`: on the core it is pinned to, or else on a PMD that
      is not isolated and that is local unless the queue's own node has no such PMD. */
  ghost predicate GoodSpot(numas: seq<SchedNuma>, numaId: int, p: SchedPmd, q: Rxq) {
    if Pinnable(numas, q) then p.core == q.pin.value
    else !p.isolated && (numaId == q.numaId || !HasLocalNonIso(numas, q.numaId))
  }

  ghost predicate NodeGood(numas: seq<SchedNuma>, node: SchedNuma) {
    forall i, q :: 0 <= i < |node.pmds| && q in node.pmds[i].rxqs ==> GoodSpot(numas, node.numaId, node.pmds[i], q)
  }

  ghost predicate NodePinned(node: SchedNuma) {
    forall i, q :: 0 <= i < |node.pmds| && q in node.pmds[i].rxqs ==> q.pin == Some(node.pmds[i].core)
  }

  /** Whatever `b` holds, `a` held already or it is one of `qs`. */
  ghost predicate GrewBy(a: SchedNuma, b: SchedNuma, qs: seq<Rxq>)
    requires |a.pmds| == |b.pmds|
  {
    forall i, q :: 0 <= i < |a.pmds| && q in b.pmds[i].rxqs ==> q in a.pmds[i].rxqs || q in qs
  }

  ghost predicate ValidList(numas: seq<SchedNuma>) {
    && (forall j, k :: 0 <= j < k < |numas| ==> numas[j].numaId != numas[k].numaId)
    && (forall j :: 0 <= j < |numas| ==> ValidNode(numas[j]))
  }

  /** Same threads on the same nodes. */
  ghost predicate SameShape(a: seq<SchedNuma>, b: seq<SchedNuma>) {
    |a| == |b| && forall j :: 0 <= j < |a| ==> SameNode(a[j], b[j])
  }

  ghost predicate SameNode(a: SchedNuma, b: SchedNuma) {
    && a.numaId == b.numaId
    && |a.pmds| == |b.pmds|
    && forall i :: 0 <= i < |a.pmds| ==> a.pmds[i].core == b.pmds[i].core
  }

  /** Same threads, of which the same are isolated, and no queue taken away. */
  ghost predicate Grown(a: seq<SchedNuma>, b: seq<SchedNuma>) {
    |a| == |b| && forall j :: 0 <= j < |a| ==> GrownNode(a[j], b[j])
  }

  ghost predicate GrownNode(a: SchedNuma, b: SchedNuma) {
    && SameNode(a, b)
    && forall i :: 0 <= i < |a.pmds| ==> a.pmds[i].isolated == b.pmds[i].isolated && a.pmds[i].rxqs <= b.pmds[i].rxqs
  }

  lemma SameShapeSameCores(a: seq<SchedNuma>, b: seq<SchedNuma>, core: nat)
    requires SameShape(a, b)
    ensures HasCore(a, core) <==> HasCore(b, core)
  {
    if HasCore(a, core) {
      var j, i :| 0 <= j < |a| && 0 <= i < |a[j].pmds| && a[j].pmds[i].core == core;
      assert SameNode(a[j], b[j]);
      assert b[j].pmds[i].core == core;
    }
    if HasCore(b, core) {
      var j, i :| 0 <= j < |b| && 0 <= i < |b[j].pmds| && b[j].pmds[i].core == core;
      assert SameNode(a[j], b[j]);
      assert a[j].pmds[i].core == core;
    }
  }

  lemma SameShapeRefl(numas: seq<SchedNuma>)
    ensures SameShape(numas, numas)
  {
  }

  lemma SameShapeStep(first: seq<SchedNuma>, before: seq<SchedNuma>, after: seq<SchedNuma>, j: nat)
    requires SameShape(first, before) && j < |before| == |after| && after == before[j := after[j]]
    requires SameNode(before[j], after[j])
    ensures SameShape(first, after)
  {
    assert SameNode(first[j], before[j]);
  }

  lemma SameShapeTrans(a: seq<SchedNuma>, b: seq<SchedNuma>, c: seq<SchedNuma>)
    requires SameShape(a, b) && SameShape(b, c)
    ensures SameShape(a, c)
  {
    forall j | 0 <= j < |a|
      ensures SameNode(a[j], c[j])
    {
      assert SameNode(a[j], b[j]) && SameNode(b[j], c[j]);
    }
  }

  lemma GrownSameNonIso(a: SchedNuma, b: SchedNuma)
    requires GrownNode(a, b)
    ensures HasNonIso(a) <==> HasNonIso(b)
  {
    if i :| 0 <= i < |a.pmds| && !a.pmds[i].isolated {
      assert !b.pmds[i].isolated;
    }
    if i :| 0 <= i < |b.pmds| && !b.pmds[i].isolated {
      assert !a.pmds[i].isolated;
    }
  }

  lemma GrownSameSpots(a: seq<SchedNuma>, b: seq<SchedNuma>, node: SchedNuma)
    requires Grown(a, b)
    ensures forall q :: Pinnable(a, q) <==> Pinnable(b, q)
    ensures SomeNonIso(a) <==> SomeNonIso(b)
    ensures forall id :: HasLocalNonIso(a, id) <==> HasLocalNonIso(b, id)
    ensures NodeGood(a, node) <==> NodeGood(b, node)
  {
    forall core
      ensures HasCore(a, core) <==> HasCore(b, core)
    {
      SameShapeSameCores(a, b, core);
    }
    forall j | 0 <= j < |a|
      ensures a[j].numaId == b[j].numaId && (HasNonIso(a[j]) <==> HasNonIso(b[j]))
    {
      GrownSameNonIso(a[j], b[j]);
    }
    assert forall id :: HasLocalNonIso(a, id) <==> HasLocalNonIso(b, id);
    assert forall id, p, q :: GoodSpot(a, id, p, q) <==> GoodSpot(b, id, p, q);
  }

  ghost predicate Idle(node: SchedNuma) {
    forall i :: 0 <= i < |node.pmds| ==> node.pmds[i].rxqs == []
  }

  /** A node as sched_numa_list_populate() leaves it. */
  ghost predicate NewNode(node: SchedNuma) {
    && Idle(node) && node.nIsolated == 0 && node.cur == 0 && node.inc
    && |node.pmds| > 0 && forall i :: 0 <= i < |node.pmds| ==> node.pmds[i].cycles == 0 && !node.pmds[i].isolated
  }

  /** The load counters and the queue counts stay below the UINT64_MAX that the scan for the lowest PMD
      starts from. */
  predicate Fits(all: seq<Rxq>) {
    |all| < U64_MAX && SumCycles(all) < U64_MAX
  }

  /** The greedy invariant of a node: when a PMD got its smallest busy queue, no other PMD carried less, and all queues
      placed by then were at least as big. */
  ghost predicate Balanced(node: SchedNuma) {
    forall a, b :: 0 <= a < |node.pmds| && 0 <= b < |node.pmds| && !node.pmds[a].isolated && !node.pmds[b].isolated
      ==> BalancedPair(node.pmds[a], node.pmds[b])
  }

  ghost predicate BalancedPair(a: SchedPmd, b: SchedPmd) {
    SumCycles(a.rxqs) - MinBusy(a.rxqs) <= SumAtLeast(b.rxqs, MinBusy(a.rxqs))
  }

  /** So taking the smallest busy queue off any PMD leaves no more than any other PMD carries. */
  lemma BalancedLoads(node: SchedNuma, a: nat, b: nat)
    requires Balanced(node) && a < |node.pmds| && b < |node.pmds| && !node.pmds[a].isolated && !node.pmds[b].isolated
    ensures SumCycles(node.pmds[a].rxqs) - MinBusy(node.pmds[a].rxqs) <= SumCycles(node.pmds[b].rxqs)
  {
    assert BalancedPair(node.pmds[a], node.pmds[b]);
    SumAtLeastAll(node.pmds[b].rxqs, MinBusy(node.pmds[a].rxqs));
  }

  function Added(p: SchedPmd, q: Rxq): SchedPmd {
    p.(rxqs := p.rxqs + [q], cycles := AddU64(p.cycles, q.cycles))
  }

  /** sched_pmd_add_rxq() on PMD `i`. */
  function WithAdded(node: SchedNuma, i: nat, q: Rxq): SchedNuma
    requires i < |node.pmds|
  {
    node.(pmds := node.pmds[i := Added(node.pmds[i], q)])
  }

  function WithIsolated(node: SchedNuma, i: nat): SchedNuma
    requires i < |node.pmds|
  {
    node.(pmds := node.pmds[i := node.pmds[i].(isolated := true)], nIsolated := node.nIsolated + 1)
  }

  lemma NodeAdded(node: SchedNuma, i: nat, q: Rxq)
    requires ValidNode(node) && i < |node.pmds|
    ensures ValidNode(WithAdded(node, i, q))
    ensures PmdsRxqs(WithAdded(node, i, q).pmds) == PmdsRxqs(node.pmds) + multiset{q}
  {
    var p := node.pmds[i];
    CountIsoUpdate(node.pmds, i, Added(p, q));
    PmdsRxqsAdd(node.pmds, i, Added(p, q), q);
    assert ExactLoad(p);
    assert ExactLoad(Added(p, q)) by {
      assert Added(p, q).rxqs[..|p.rxqs|] == p.rxqs;
    }
  }

  lemma NodeIsolated(node: SchedNuma, i: nat)
    requires ValidNode(node) && i < |node.pmds| && !node.pmds[i].isolated
    ensures ValidNode(WithIsolated(node, i))
    ensures PmdsRxqs(WithIsolated(node, i).pmds) == PmdsRxqs(node.pmds)
  {
    var p := node.pmds[i].(isolated := true);
    CountIsoUpdate(node.pmds, i, p);
    PmdsRxqsSame(node.pmds, node.pmds[i := p]);
    assert ExactLoad(node.pmds[i]);
    assert ExactLoad(p);
  }

  class SchedNumaList {
    var numas: seq<SchedNuma>

    ghost predicate Valid()
      reads this
    {
      ValidList(numas)
    }

    constructor (nodes: seq<SchedNuma>)
      ensures numas == nodes
    {
      numas := nodes;
    }

    method FindByCore(core: nat) returns (at: Option<(nat, nat)>)
      ensures at.Some? ==> at.value.0 < |numas| && at.value.1 < |numas[at.value.0].pmds|
                           && numas[at.value.0].pmds[at.value.1].core == core
      ensures at.Some? <==> HasCore(numas, core)
    {
      for j := 0 to |numas|
        invariant forall k, i :: 0 <= k < j && 0 <= i < |numas[k].pmds| ==> numas[k].pmds[i].core != core
      {
        for i := 0 to |numas[j].pmds|
          invariant forall l :: 0 <= l < i ==> numas[j].pmds[l].core != core
        {
          if numas[j].pmds[i].core == core {
            return Some((j, i));
          }
        }
      }
      return None;
    }

    method Lookup(numaId: int) returns (at: Option<nat>)
      ensures at.Some? ==> at.value < |numas| && numas[at.value].numaId == numaId
      ensures at.None? ==> forall j :: 0 <= j < |numas| ==> numas[j].numaId != numaId
    {
      for j := 0 to |numas|
        invariant forall k :: 0 <= k < j ==> numas[k].numaId != numaId
      {
        if numas[j].numaId == numaId {
          return Some(j);
        }
      }
      return None;
    }

    method AddRxq(j: nat, i: nat, q: Rxq)
      requires Valid() && j < |numas| && i < |numas[j].pmds|
      modifies this
      ensures Valid()
      ensures numas == old(numas)[j := WithAdded(old(numas[j]), i, q)]
      ensures ListRxqs(numas) == old(ListRxqs(numas)) + multiset{q}
    {
      hide ListRxqs;
      hide PmdsRxqs;
      hide SumCycles;
      var node := numas[j];
      assert ValidNode(node);
      NodeAdded(node, i, q);
      ListRxqsReplace(numas, j, WithAdded(node, i, q), multiset{q});
      numas := numas[j := WithAdded(node, i, q)];
    }

    /** sched_pmd_next_rr(): the current PMD, after moving the walk on by one. */
    method NextRr(j: nat, updown: bool) returns (i: nat)
      requires Valid() && j < |numas|
      modifies this
      ensures Valid() && i == old(numas[j].cur)
      ensures |numas| == old(|numas|) && numas ==
              old(numas)[j := old(numas[j]).(cur := numas[j].cur, inc := numas[j].inc)]
      ensures forall t :: 0 <= t < |numas[j].pmds| && t != i ==>
        StepsTo(numas[j].cur, numas[j].inc, t, |numas[j].pmds|, updown)
        == StepsTo(old(numas[j].cur), old(numas[j].inc), t, |numas[j].pmds|, updown) - 1
      ensures forall t: nat :: InPhase(old(numas[j]), t, updown) ==>
        InPhase(numas[j], t + if numas[j].pmds[i].isolated then 0 else 1, updown) &&
        (!numas[j].pmds[i].isolated ==> InTurn(numas[j].pmds, i, t, updown))
    {
      hide InPhase;
      hide InTurn;
      var node := numas[j];
      i := node.cur;
      if node.inc {
        if node.cur == |node.pmds| - 1 {
          if updown {
            node := node.(inc := false);
          } else {
            node := node.(cur := 0);
          }
        } else {
          node := node.(cur := node.cur + 1);
        }
      } else {
        if node.cur == 0 {
          node := node.(inc := true);
        } else {
          node := node.(cur := node.cur - 1);
        }
      }
      numas := numas[j := node];
      forall t: nat | InPhase(old(numas[j]), t, updown)
        ensures InPhase(node, t + if node.pmds[i].isolated then 0 else 1, updown)
        ensures !node.pmds[i].isolated ==> InTurn(node.pmds, i, t, updown)
      {
        PhaseStep(old(numas[j]), node.cur, node.inc, updown, t);
        if !node.pmds[i].isolated {
          PhaseTurn(old(numas[j]), t, updown);
        }
      }
    }

    /** sched_pmd_next_noniso_rr(): finds a non-isolated PMD whenever the node has one. */
    method NextNonIsoRr(j: nat, updown: bool) returns (r: Option<nat>)
      requires Valid() && j < |numas|
      modifies this
      ensures Valid()
      ensures |numas| == old(|numas|) && numas ==
              old(numas)[j := old(numas[j]).(cur := numas[j].cur, inc := numas[j].inc)]
      ensures r.Some? ==> r.value < |numas[j].pmds| && !numas[j].pmds[r.value].isolated
      ensures r.Some? <==> HasNonIso(numas[j])
      ensures forall t: nat :: InPhase(old(numas[j]), t, updown) && r.Some? ==>
        InPhase(numas[j], t + 1, updown) && InTurn(numas[j].pmds, r.value, t, updown)
    {
      hide InPhase;
      hide InTurn;
      var n := |numas[j].pmds|;
      var k := 0;
      ghost var cur, inc := numas[j].cur, numas[j].inc;
      while k < 2 * n
        invariant Valid() && 0 <= k <= 2 * n
        invariant |numas| == old(|numas|)
        invariant numas == old(numas)[j := old(numas[j]).(cur := numas[j].cur, inc := numas[j].inc)]
        invariant forall t :: 0 <= t < n && !numas[j].pmds[t].isolated ==>
          StepsTo(numas[j].cur, numas[j].inc, t, n, updown) == StepsTo(cur, inc, t, n, updown) - k
        invariant forall t: nat :: InPhase(old(numas[j]), t, updown) ==> InPhase(numas[j], t, updown)
      {
        var i := NextRr(j, updown);
        if !numas[j].pmds[i].isolated {
          return Some(i);
        }
        k := k + 1;
      }
      forall t | 0 <= t < n
        ensures numas[j].pmds[t].isolated
      {
        StepsToBound(cur, inc, t, n, updown);
        StepsToBound(numas[j].cur, numas[j].inc, t, n, updown);
      }
      return None;
    }

    /** sched_pmd_get_lowest(): the first non-isolated PMD of least cycles (or of fewest queues).  The
        scan starts from UINT64_MAX, so a PMD at that very value is never picked. */
    method GetLowest(j: nat, hasCyc: bool) returns (r: Option<nat>)
      requires j < |numas|
      ensures r.Some? ==> r.value < |numas[j].pmds| && !numas[j].pmds[r.value].isolated
      ensures r.Some? ==> forall i :: 0 <= i < |numas[j].pmds| && !numas[j].pmds[i].isolated ==>
        Weight(numas[j].pmds[r.value], hasCyc) <= Weight(numas[j].pmds[i], hasCyc)
        && (i < r.value ==> Weight(numas[j].pmds[r.value], hasCyc) < Weight(numas[j].pmds[i], hasCyc))
      ensures r.None? <==> forall i :: 0 <= i < |numas[j].pmds| && !numas[j].pmds[i].isolated ==>
        Weight(numas[j].pmds[i], hasCyc) >= U64_MAX
    {
      var lowest := U64_MAX;
      r := None;
      for i := 0 to |numas[j].pmds|
        invariant r.None? ==> lowest == U64_MAX
        invariant r.Some? ==> r.value < i && !numas[j].pmds[r.value].isolated
                              && lowest == Weight(numas[j].pmds[r.value], hasCyc) < U64_MAX
        invariant forall k :: 0 <= k < i && !numas[j].pmds[k].isolated ==>
          lowest <= Weight(numas[j].pmds[k], hasCyc)
          && (r.Some? && k < r.value ==> lowest < Weight(numas[j].pmds[k], hasCyc))
      {
        var p := numas[j].pmds[i];
        if !p.isolated && Weight(p, hasCyc) < lowest {
          lowest := Weight(p, hasCyc);
          r := Some(i);
        }
      }
    }

    method Isolate(j: nat, i: nat)
      requires Valid() && j < |numas| && i < |numas[j].pmds| && !numas[j].pmds[i].isolated
      modifies this
      ensures Valid()
      ensures numas == old(numas)[j := WithIsolated(old(numas[j]), i)]
      ensures ListRxqs(numas) == old(ListRxqs(numas))
    {
      hide ListRxqs;
      hide PmdsRxqs;
      hide SumCycles;
      hide CountIso;
      var node := numas[j];
      assert ValidNode(node);
      NodeIsolated(node, i);
      ListRxqsReplace(numas, j, WithIsolated(node, i), multiset{});
      numas := numas[j := WithIsolated(node, i)];
    }

    method Pin(j: nat, i: nat, q: Rxq, iso: bool)
      requires Valid() && j < |numas| && i < |numas[j].pmds| && q.pin == Some(numas[j].pmds[i].core)
      requires PinReady(numas[j], iso)
      modifies this
      ensures Valid() && |numas| == old(|numas|) && numas == old(numas)[j := numas[j]]
      ensures SameNode(old(numas[j]), numas[j]) && PinReady(numas[j], iso)
      ensures ListRxqs(numas) == old(ListRxqs(numas)) + multiset{q}
    {
      hide ListRxqs;
      hide SumCycles;
      hide CountIso;
      if iso && !numas[j].pmds[i].isolated {
        Isolate(j, i);
      }
      AddRxq(j, i, q);
    }

    /** One turn of the first loop: the queue is pinned, if it asks for a core on which there is a PMD. */
    method PinOne(q: Rxq, iso: bool) returns (done: bool)
      requires Valid() && forall j :: 0 <= j < |numas| ==> PinReady(numas[j], iso)
      modifies this
      ensures Valid() && SameShape(old(numas), numas) && (done <==> Pinnable(old(numas), q))
      ensures ListRxqs(numas) == old(ListRxqs(numas)) + if done then multiset{q} else multiset{}
      ensures forall j :: 0 <= j < |numas| ==> PinReady(numas[j], iso)
    {
      hide ListRxqs;
      hide SumCycles;
      hide CountIso;
      hide ValidNode;
      hide NodePinned;
      hide NodeIsolation;
      hide SameNode;
      hide HasCore;
      SameShapeRefl(numas);
      done := false;
      if q.pin.Some? {
        var at := FindByCore(q.pin.value);
        if at.Some? {
          ghost var before := numas;
          Pin(at.value.0, at.value.1, q, iso);
          SameShapeStep(before, before, numas, at.value.0);
          done := true;
        }
      }
    }

    /** The first loop of sched_numa_list_schedule(): pins what can be pinned, collects the rest. */
    method PinPhase(queues: seq<Rxq>, iso: bool) returns (rest: seq<Rxq>)
      requires Valid() && ListRxqs(numas) == multiset{}
      requires forall j :: 0 <= j < |numas| ==> NewNode(numas[j])
      modifies this
      ensures Valid() && SameShape(old(numas), numas)
      ensures ListRxqs(numas) + multiset(rest) == multiset(queues)
      ensures forall q <- rest :: !Pinnable(old(numas), q)
      ensures rest == Unpinned(old(numas), queues)
      ensures forall j :: 0 <= j < |numas| ==> PinReady(numas[j], iso)
    {
      hide ListRxqs;
      hide SumCycles;
      hide CountIso;
      hide ValidNode;
      hide PinReady;
      hide SameShape;
      hide Pinnable;
      hide NewNode;
      NewNodesPinned(numas, iso);
      SameShapeRefl(numas);
      rest := [];
      hide Unpinned;
      UnpinnedNone(numas, queues);
      for n := 0 to |queues|
        invariant Valid() && SameShape(old(numas), numas)
        invariant ListRxqs(numas) + multiset(rest) == multiset(queues[..n])
        invariant rest == Unpinned(old(numas), queues[..n])
        invariant forall j :: 0 <= j < |numas| ==> PinReady(numas[j], iso)
      {
        var q := queues[n];
        assert queues[..n + 1] == queues[..n] + [q];
        UnpinnedNext(old(numas), queues, n);
        SameShapeSamePins(old(numas), numas);
        ghost var before := numas;
        var done := PinOne(q, iso);
        SameShapeTrans(old(numas), before, numas);
        OneMore(ListRxqs(before), rest, queues[..n], q, done);
        if !done {
          rest := rest + [q];
        }
      }
      assert queues[..|queues|] == queues;
      UnpinnedAre(old(numas), queues);
    }

    /** sched_numa_list_next(): the node after `last`, wrapping around. */
    method NextNode(last: Option<nat>) returns (j: nat)
      requires |numas| > 0 && (last.Some? ==> last.value < |numas|)
      ensures j == FirstAfter(last, |numas|) < |numas|
    {
      if last.Some? && last.value + 1 < |numas| {
        j := last.value + 1;
      } else {
        j := 0;
      }
    }

    /** The node for a queue of node `numaId`: that node if it has a non-isolated PMD, or else the next
        node that has one, the walk over the nodes going on from where it stopped last time. */
    method SelectNode(numaId: int, last: Option<nat>) returns (at: Option<nat>, last': Option<nat>)
      requires Valid() && (last.Some? ==> last.value < |numas|)
      ensures last'.Some? ==> last'.value < |numas|
      ensures at.Some? ==> at.value < |numas| && HasNonIso(numas[at.value])
      ensures at.Some? <==> SomeNonIso(numas)
      ensures at.Some? ==> NodeChosen(numas, numaId, last, at.value)
      ensures at.Some? ==> last' == if HasLocalNonIso(numas, numaId) then last else at
    {
      hide ValidNode;
      hide HasNonIso;
      hide NonIsoCount;
      last' := last;
      at := Lookup(numaId);
      if at.Some? {
        NonIsoCountExact(numas[at.value]);
      }
      if at.None? || NonIsoCount(numas[at.value]) == 0 {
        assert !HasLocalNonIso(numas, numaId);
        at := None;
        var k := 0;
        ghost var first := FirstAfter(last, |numas|);
        while k < |numas|
          invariant 0 <= k <= |numas|
          invariant last'.Some? ==> last'.value < |numas|
          invariant |numas| > 0 ==>
            FirstAfter(last', |numas|) == if first + k < |numas| then first + k else first + k - |numas|
          invariant forall t :: 0 <= t < |numas| && (first <= t < first + k || t < first + k - |numas|) ==>
            !HasNonIso(numas[t])
        {
          var j := NextNode(last');
          last' := Some(j);
          NonIsoCountExact(numas[j]);
          if NonIsoCount(numas[j]) != 0 {
            at := Some(j);
            break;
          }
          k := k + 1;
        }
      }
    }

    /** sched_pmd_next() for a queue of `cycles` cycles on a node that has a non-isolated PMD. */
    method NextPmd(j: nat, algo: Algo, cycles: u64) returns (r: Option<nat>)
      requires Valid() && j < |numas| && HasNonIso(numas[j])
      modifies this
      ensures Valid()
      ensures |numas| == old(|numas|) && numas ==
              old(numas)[j := old(numas[j]).(cur := numas[j].cur, inc := numas[j].inc)]
      ensures r.Some? ==> r.value < |numas[j].pmds| && !numas[j].pmds[r.value].isolated
      ensures r.None? ==> algo == Group && forall i :: 0 <= i < |numas[j].pmds| && !numas[j].pmds[i].isolated ==>
        Weight(numas[j].pmds[i], cycles != 0) >= U64_MAX
      ensures algo == Group && r.Some? ==> forall i :: 0 <= i < |numas[j].pmds| && !numas[j].pmds[i].isolated ==>
        Weight(numas[j].pmds[r.value], cycles != 0) <= Weight(numas[j].pmds[i], cycles != 0)
        && (i < r.value ==> Weight(numas[j].pmds[r.value], cycles != 0) < Weight(numas[j].pmds[i], cycles != 0))
      ensures algo == Group ==> numas == old(numas)
      ensures algo != Group && r.Some? ==> Dealing(old(numas[j]), numas[j], r.value, algo == Cycles)
    {
      hide InPhase;
      hide InTurn;
      if algo == Group {
        r := GetLowest(j, cycles != 0);
        assert numas == numas[j := numas[j].(cur := numas[j].cur, inc := numas[j].inc)];
      } else {
        r := NextNonIsoRr(j, algo == Cycles);
      }
    }

    /** One turn of the second loop: places one queue. */
    method PlaceOne(q: Rxq, algo: Algo, last: Option<nat>)
      returns (placed: bool, at: nat, ghost pmd: nat, last': Option<nat>)
      requires Valid() && (last.Some? ==> last.value < |numas|)
      modifies this
      ensures Valid() && (last'.Some? ==> last'.value < |numas|)
      ensures !placed ==> ListRxqs(numas) == old(ListRxqs(numas)) && Grown(old(numas), numas)
      ensures !placed ==> forall j :: 0 <= j < |numas| ==> numas[j].pmds == old(numas[j].pmds)
      ensures !placed ==> numas == old(numas)
      ensures placed ==> ListRxqs(numas) == old(ListRxqs(numas)) + multiset{q}
      ensures placed ==> at < |numas| && |numas| == old(|numas|) && numas == old(numas)[at := numas[at]]
                         && Placed(old(numas), at, pmd, numas[at], q, algo)
      ensures placed ==> NodeChosen(old(numas), q.numaId, last, at)
      ensures placed ==> last' == if HasLocalNonIso(old(numas), q.numaId) then last else Some(at)
      ensures placed && algo != Group ==> Dealing(old(numas[at]), numas[at], pmd, algo == Cycles)
      ensures !old(SomeNonIso(numas)) ==> !placed
      ensures old(SomeNonIso(numas)) && !placed ==> algo == Group && old(Overfull(numas))
    {
      hide ValidNode;
      hide ListRxqs;
      hide SumCycles;
      hide Dealing;
      placed, at, pmd := false, 0, 0;
      var node;
      node, last' := SelectNode(q.numaId, last);
      if node.Some? {
        at := node.value;
        var next := NextPmd(at, algo, q.cycles);
        SameLists(old(numas), numas);
        if next.Some? {
          ghost var walked := numas[at];
          AddRxq(at, next.value, q);
          placed, pmd := true, next.value;
          if algo != Group {
            AddedDealing(old(numas[at]), walked, numas[at], pmd, algo == Cycles);
          }
        } else {
          assert Overfull(old(numas));
        }
      }
    }

    /** The second loop of sched_numa_list_schedule(). */
    method AssignPhase(rest: seq<Rxq>, algo: Algo, ghost all: seq<Rxq>) returns (ghost spots: seq<Option<Spot>>)
      requires Valid() && ListRxqs(numas) + multiset(rest) == multiset(all)
      requires algo == Group ==> Sorted(rest)
      requires forall j :: 0 <= j < |numas| ==> NodePinned(numas[j])
      requires forall q <- rest :: !Pinnable(numas, q)
      requires forall j :: 0 <= j < |numas| ==> numas[j].cur == 0 && numas[j].inc
      modifies this
      ensures Valid() && AssignInv(old(numas), numas, algo, rest, old(ListRxqs(numas)), all)
      ensures (algo == Group ==> Fits(all)) ==> Dealt(old(numas), numas, rest, spots, algo)
    {
      hide LogInv;
      hide NodeChosen;
      hide Dealing;
      hide Fits;
      hide PlacedAt;
      hide HasLocalNonIso;
      hide ListRxqs;
      hide AssignInv;
      hide Placed;
      hide SomeNonIso;
      hide Overfull;
      var last: Option<nat> := None;
      ghost var start, open := numas, ListRxqs(numas);
      AssignStart(numas, algo, all);
      spots := [];
      LogStart(numas, algo);
      for n := 0 to |rest|
        invariant Valid() && (last.Some? ==> last.value < |numas|)
        invariant AssignInv(start, numas, algo, rest[..n], open, all)
        invariant |spots| == n
        invariant (algo == Group ==> Fits(all)) ==> LogInv(start, numas, algo, rest[..n], spots, last)
      {
        ghost var before := numas;
        var q := rest[n];
        assert rest[..n + 1] == rest[..n] + [q];
        PrefixFits(rest, n, open, multiset(all));
        ghost var last0 := last;
        var placed, at;
        ghost var pmd;
        placed, at, pmd, last := PlaceOne(q, algo, last);
        if placed {
          StepPlaced(start, before, numas, at, pmd, q, algo, rest[..n], open, all);
          if algo == Group ==> Fits(all) {
            LogPlaced(start, before, numas, at, pmd, q, algo, rest[..n], spots, last0, last, open, all);
          }
          spots := spots + [Some(Spot(at, pmd))];
        } else {
          StepSkipped(start, before, numas, q, algo, rest[..n], open, all);
          if algo == Group ==> Fits(all) {
            LogSkipped(start, before, numas, q, algo, rest[..n], spots, last0, last, open, all);
          }
          spots := spots + [None];
        }
      }
      assert rest[..|rest|] == rest;
      LogDone(start, numas, algo, rest, spots, last);
    }

    /** sched_numa_list_schedule(): every queue that can be pinned is; if some PMD is not isolated, every
        other queue lands on exactly one such PMD, a local one if there is one; under "group" the nodes
        without pinned queues come out balanced.  `Fits` excludes the wrapped counters.  The queues that are not pinned
        are dealt in their order, each to the spot that the algorithm gives it after those before. */
    method Schedule(queues: seq<Rxq>, algo: Algo, iso: bool)
      returns (ghost pinned: seq<SchedNuma>, ghost order: seq<Rxq>, ghost spots: seq<Option<Spot>>)
      requires Valid() && forall j :: 0 <= j < |numas| ==> NewNode(numas[j])
      modifies this
      ensures Valid() && SameShape(old(numas), numas)
      ensures Scheduled(numas, queues, algo, iso)
      ensures Grown(pinned, numas) && Ordered(numas, queues, algo, order)
      ensures forall j :: 0 <= j < |pinned| ==> NodePinned(pinned[j])
      ensures (algo == Group ==> Fits(queues)) ==> Dealt(pinned, numas, order, spots, algo)
    {
      hide Dealt;
      hide Unpinned;
      hide Fits;
      hide ListRxqs;
      hide AssignInv;
      hide NewNode;
      hide Pinnable;
      hide Scheduled;
      NewListsEmpty(numas);
      ghost var first := numas;
      var rest := PinPhase(queues, iso);
      pinned := numas;
      SameShapeSamePins(first, pinned);
      if |rest| > 1 && algo != RoundRobin {
        var sorted := SortByCycles(rest);
        SameElements(rest, sorted);
        rest := sorted;
      }
      order := rest;
      spots := AssignPhase(rest, algo, queues);
      ScheduleDone(pinned, numas, rest, queues, algo, iso);
      ShapeKept(first, pinned, numas, algo, rest, queues);
      SameUnpinned(first, numas, queues);
    }
  }

  function FirstAfter(last: Option<nat>, n: nat): nat {
    if last.Some? && last.value + 1 < n then last.value + 1 else 0
  }

  // ---------------------------------------------------------------- the log of placements

  /** PMD `pmd` of node number `node` in the list. */
  datatype Spot = Spot(node: nat, pmd: nat)

  /** The queues of the log that were placed on PMD `i` of node `j`, in order. */
  function On(order: seq<Rxq>, spots: seq<Option<Spot>>, j: nat, i: nat): seq<Rxq>
    requires |order| == |spots|
  {
    if order == [] then []
    else
      var n := |order| - 1;
      var r := On(order[..n], spots[..n], j, i);
      if spots[n] == Some(Spot(j, i)) then r + [order[n]] else r
  }

  /** How many queues of the log were placed on node `j`. */
  function Turns(spots: seq<Option<Spot>>, j: nat): nat {
    if spots == [] then 0
    else
      var n := |spots| - 1;
      Turns(spots[..n], j) + if spots[n].Some? && spots[n].value.node == j then 1 else 0
  }

  /** The node that got the last queue that could not stay on its own node. */
  ghost function LastCross(numas: seq<SchedNuma>, order: seq<Rxq>, spots: seq<Option<Spot>>): Option<nat>
    requires |order| == |spots|
  {
    if order == [] then None
    else
      var n := |order| - 1;
      if spots[n].Some? && !HasLocalNonIso(numas, order[n].numaId) then Some(spots[n].value.node)
      else LastCross(numas, order[..n], spots[..n])
  }

  /** How many nodes the walk over `n` nodes passes over from `last` to `t`. */
  function Ahead(last: Option<nat>, t: nat, n: nat): int {
    if last.None? then t else if t > last.value then t - last.value - 1 else t + n - last.value - 1
  }

  /** Node `j` is the one for a queue of node `numaId`: its own if that has a PMD that is not isolated, else the next
      after `last` that has one. */
  ghost predicate NodeChosen(numas: seq<SchedNuma>, numaId: int, last: Option<nat>, j: nat) {
    && j < |numas| && HasNonIso(numas[j])
    && if HasLocalNonIso(numas, numaId) then numas[j].numaId == numaId
       else forall t :: 0 <= t < |numas| && HasNonIso(numas[t]) ==>
              Ahead(last, j, |numas|) <= Ahead(last, t, |numas|)
  }

  function Load(qs: seq<Rxq>, hasCyc: bool): nat {
    if hasCyc then SumCycles(qs) else |qs|
  }

  /** What PMD `k` of node `j` holds after the placements of the log. */
  function Held(pinned: SchedNuma, order: seq<Rxq>, spots: seq<Option<Spot>>, j: nat, k: nat): seq<Rxq>
    requires |order| == |spots| && k < |pinned.pmds|
  {
    pinned.pmds[k].rxqs + On(order, spots, j, k)
  }

  /** Node `j` holds the pinned queues and those of the log. */
  ghost predicate NodeHolds(pinned: SchedNuma, node: SchedNuma, order: seq<Rxq>, spots: seq<Option<Spot>>, j: nat)
    requires |order| == |spots|
  {
    |node.pmds| == |pinned.pmds| && forall k :: 0 <= k < |node.pmds| ==>
      node.pmds[k].rxqs == Held(pinned, order, spots, j, k)
  }

  /** PMD `i` has the least cycles, or for an idle queue the fewest queues, and is the first such PMD. */
  ghost predicate LeastLoaded(pinned: SchedNuma, order: seq<Rxq>, spots: seq<Option<Spot>>, j: nat, i: nat,
                              hasCyc: bool)
    requires |order| == |spots| && i < |pinned.pmds|
  {
    && !pinned.pmds[i].isolated
    && forall k :: 0 <= k < |pinned.pmds| && !pinned.pmds[k].isolated ==>
      var a, b := Load(Held(pinned, order, spots, j, i), hasCyc), Load(Held(pinned, order, spots, j, k), hasCyc);
      a <= b && (k < i ==> a < b)
  }

  /** Where queue `q` goes after the placements of the log. */
  ghost predicate RightSpot(pinned: seq<SchedNuma>, order: seq<Rxq>, spots: seq<Option<Spot>>, q: Rxq, spot: Spot,
                            algo: Algo)
    requires |order| == |spots|
  {
    && NodeChosen(pinned, q.numaId, LastCross(pinned, order, spots), spot.node)
    && spot.pmd < |pinned[spot.node].pmds|
    && if algo == Group then LeastLoaded(pinned[spot.node], order, spots, spot.node, spot.pmd, q.cycles != 0)
       else InTurn(pinned[spot.node].pmds, spot.pmd, Turns(spots, spot.node), algo.Cycles?)
  }

  /** If some PMD is not isolated, every queue of the log has a spot, the right one after those before it. */
  ghost predicate SpotsRight(pinned: seq<SchedNuma>, order: seq<Rxq>, spots: seq<Option<Spot>>, algo: Algo)
    requires |order| == |spots|
  {
    forall n :: 0 <= n < |order| ==> SpotRightAt(pinned, order, spots, algo, n)
  }

  ghost predicate SpotRightAt(pinned: seq<SchedNuma>, order: seq<Rxq>, spots: seq<Option<Spot>>, algo: Algo, n: nat)
    requires n < |order| == |spots|
  {
    if SomeNonIso(pinned) then
      spots[n].Some? && RightSpot(pinned, order[..n], spots[..n], order[n], spots[n].value, algo)
    else spots[n].None?
  }

  /** The queues of `order` were dealt one after the other to the PMDs of `pinned`, as `spots` says. */
  ghost predicate Dealt(pinned: seq<SchedNuma>, numas: seq<SchedNuma>, order: seq<Rxq>, spots: seq<Option<Spot>>,
                        algo: Algo) {
    && |order| == |spots| && |numas| == |pinned|
    && (forall j :: 0 <= j < |numas| ==> NodeHolds(pinned[j], numas[j], order, spots, j))
    && SpotsRight(pinned, order, spots, algo)
  }

  /** A step of the walk to PMD `i`, which is the one whose turn it is. */
  ghost predicate Dealing(before: SchedNuma, after: SchedNuma, i: nat, updown: bool)
    requires i < |before.pmds|
  {
    forall t: nat :: InPhase(before, t, updown) ==> InPhase(after, t + 1, updown) && InTurn(before.pmds, i, t, updown)
  }

  /** What the second loop keeps about the log. */
  ghost predicate LogInv(pinned: seq<SchedNuma>, numas: seq<SchedNuma>, algo: Algo, order: seq<Rxq>,
                         spots: seq<Option<Spot>>, last: Option<nat>) {
    && Dealt(pinned, numas, order, spots, algo)
    && (SomeNonIso(pinned) ==> last == LastCross(pinned, order, spots))
    && (algo != Group ==> forall j :: 0 <= j < |numas| ==> InPhase(numas[j], Turns(spots, j), algo.Cycles?))
  }

  /** A PMD of another node, or another PMD, is left alone by a placement. */
  lemma OnSnoc(order: seq<Rxq>, spots: seq<Option<Spot>>, q: Rxq, spot: Option<Spot>)
    requires |order| == |spots|
    ensures forall j: nat, i: nat :: On(order + [q], spots + [spot], j, i) ==
              On(order, spots, j, i) + if spot == Some(Spot(j, i)) then [q] else []
    ensures forall j: nat :: Turns(spots + [spot], j) ==
              Turns(spots, j) + if spot.Some? && spot.value.node == j then 1 else 0
  {
    assert (order + [q])[..|order|] == order && (spots + [spot])[..|spots|] == spots;
  }

  lemma {:induction false} CountIsoSame(a: seq<SchedPmd>, b: seq<SchedPmd>)
    requires |a| == |b| && forall i :: 0 <= i < |a| ==> a[i].isolated == b[i].isolated
    ensures CountIso(a) == CountIso(b)
  {
    if a != [] {
      CountIsoSame(a[..|a| - 1], b[..|b| - 1]);
    }
  }

  lemma RankSame(a: seq<SchedPmd>, b: seq<SchedPmd>, i: nat)
    requires |a| == |b| && forall k :: 0 <= k < |a| ==> a[k].isolated == b[k].isolated
    requires i <= |a|
    ensures Rank(a, i) == Rank(b, i)
  {
    CountIsoSame(a[..i], b[..i]);
  }

  lemma SamePhase(a: SchedNuma, b: SchedNuma, t: nat, updown: bool)
    requires |a.pmds| == |b.pmds| && forall k :: 0 <= k < |a.pmds| ==> a.pmds[k].isolated == b.pmds[k].isolated
    requires b.cur == a.cur && b.inc == a.inc && InPhase(a, t, updown)
    ensures InPhase(b, t, updown)
  {
    RankSame(a.pmds, b.pmds, |a.pmds|);
    RankSame(a.pmds, b.pmds, a.cur);
    RankSame(a.pmds, b.pmds, a.cur + 1);
    hide Rank;
    var rounds: nat :| PhaseAt(a, t, rounds, updown);
    assert PhaseAt(b, t, rounds, updown);
  }

  lemma AddedDealing(before: SchedNuma, walked: SchedNuma, after: SchedNuma, i: nat, updown: bool)
    requires i < |before.pmds| && Dealing(before, walked, i, updown)
    requires |walked.pmds| == |after.pmds| && after.cur == walked.cur && after.inc == walked.inc
    requires forall k :: 0 <= k < |after.pmds| ==> walked.pmds[k].isolated == after.pmds[k].isolated
    ensures Dealing(before, after, i, updown)
  {
    hide InPhase;
    hide InTurn;
    forall t: nat | InPhase(before, t, updown)
      ensures InPhase(after, t + 1, updown) && InTurn(before.pmds, i, t, updown)
    {
      SamePhase(walked, after, t + 1, updown);
    }
  }

  lemma SameTurn(a: seq<SchedPmd>, b: seq<SchedPmd>, i: nat, t: nat, updown: bool)
    requires |a| == |b| && forall k :: 0 <= k < |a| ==> a[k].isolated == b[k].isolated
    requires i < |a| && InTurn(a, i, t, updown)
    ensures InTurn(b, i, t, updown)
  {
    RankSame(a, b, |a|);
    RankSame(a, b, i);
  }

  /** A non-isolated PMD whose cycle counter or queue count has reached UINT64_MAX. */
  ghost predicate Overfull(numas: seq<SchedNuma>) {
    exists j, i :: 0 <= j < |numas| && 0 <= i < |numas[j].pmds|
      && (numas[j].pmds[i].cycles >= U64_MAX || |numas[j].pmds[i].rxqs| >= U64_MAX)
  }

  /** `node` is node `at` of `numas` with `q` added to PMD `i`, not isolated, local to `q` if possible, and under
      "group" the least loaded. */
  ghost predicate Placed(numas: seq<SchedNuma>, at: nat, i: nat, node: SchedNuma, q: Rxq, algo: Algo)
    requires at < |numas|
  {
    && (numas[at].numaId == q.numaId || !HasLocalNonIso(numas, q.numaId))
    && i < |numas[at].pmds| && PlacedAt(numas[at], node, i, q, algo)
  }

  ghost predicate PlacedAt(before: SchedNuma, node: SchedNuma, i: nat, q: Rxq, algo: Algo)
    requires i < |before.pmds|
  {
    && node.pmds == WithAdded(before, i, q).pmds && node.numaId == before.numaId
    && !before.pmds[i].isolated
    && (algo == Group ==> forall k :: 0 <= k < |before.pmds| && !before.pmds[k].isolated ==>
          Weight(before.pmds[i], q.cycles != 0) <= Weight(before.pmds[k], q.cycles != 0)
          && (k < i ==> Weight(before.pmds[i], q.cycles != 0) < Weight(before.pmds[k], q.cycles != 0)))
  }

  /** What the second loop keeps.  `start` is the list before the loop, holding `open`; `done` the queues
      dealt with so far. */
  ghost predicate AssignInv(start: seq<SchedNuma>, numas: seq<SchedNuma>, algo: Algo, done: seq<Rxq>,
                            open: multiset<Rxq>, all: seq<Rxq>) {
    && Grown(start, numas)
    && (forall j :: 0 <= j < |numas| ==> NodeGood(start, numas[j]) && GrewBy(start[j], numas[j], done))
    && ListRxqs(numas) <= open + multiset(done)
    && open <= ListRxqs(numas)
    && (!SomeNonIso(start) ==> ListRxqs(numas) == open)
    && (SomeNonIso(start) && (algo == Group ==> Fits(all)) ==> ListRxqs(numas) == open + multiset(done))
    && (algo == Group && Fits(all) ==>
          forall j :: 0 <= j < |numas| && Idle(start[j]) ==> Balanced(numas[j]))
  }

  lemma AssignStart(numas: seq<SchedNuma>, algo: Algo, all: seq<Rxq>)
    requires forall j :: 0 <= j < |numas| ==> NodePinned(numas[j])
    ensures AssignInv(numas, numas, algo, [], ListRxqs(numas), all)
  {
    hide ListRxqs;
    hide Balanced;
    hide Idle;
    hide Fits;
    hide SomeNonIso;
    forall j | 0 <= j < |numas|
      ensures NodeGood(numas, numas[j]) && (Idle(numas[j]) ==> Balanced(numas[j]))
    {
      PinnedIsGood(numas, j);
      IdleBalanced(numas[j]);
    }
    hide NodeGood;
    hide NodePinned;
    assert ListRxqs(numas) + multiset([]) == ListRxqs(numas);
  }

  lemma PinnedIsGood(numas: seq<SchedNuma>, j: nat)
    requires j < |numas| && NodePinned(numas[j])
    ensures NodeGood(numas, numas[j])
  {
    forall i, q | 0 <= i < |numas[j].pmds| && q in numas[j].pmds[i].rxqs
      ensures Pinnable(numas, q)
    {
      assert HasCore(numas, numas[j].pmds[i].core);
    }
  }

  lemma IdleBalanced(node: SchedNuma)
    ensures Idle(node) ==> Balanced(node)
  {
  }

  lemma PrefixFits(rest: seq<Rxq>, n: nat, open: multiset<Rxq>, all: multiset<Rxq>)
    requires n < |rest| && open + multiset(rest) == all
    ensures open + multiset(rest[..n]) <= all
    ensures rest[n] in rest
  {
    assert rest == rest[..n] + rest[n..];
  }

  /** While everything fits, no counter is at its limit and every load is exact. */
  lemma FitsExact(numas: seq<SchedNuma>, all: seq<Rxq>)
    requires ValidList(numas) && Fits(all) && ListRxqs(numas) <= multiset(all)
    ensures !Overfull(numas)
    ensures forall j, i :: 0 <= j < |numas| && 0 <= i < |numas[j].pmds| ==>
      numas[j].pmds[i].cycles == SumCycles(numas[j].pmds[i].rxqs)
  {
    forall j, i | 0 <= j < |numas| && 0 <= i < |numas[j].pmds|
      ensures numas[j].pmds[i].cycles == SumCycles(numas[j].pmds[i].rxqs) < U64_MAX
      ensures |numas[j].pmds[i].rxqs| < U64_MAX
    {
      hide SumCycles;
      hide ListRxqs;
      hide PmdsRxqs;
      var p := numas[j].pmds[i];
      assert ValidNode(numas[j]);
      assert ExactLoad(p);
      PmdRxqsWithin(numas[j].pmds, i);
      NodeRxqsWithin(numas, j);
      SubSum(p.rxqs, all);
      SubsetSmaller(multiset(p.rxqs), multiset(all));
    }
  }

  lemma {:induction false} NodeRxqsWithin(numas: seq<SchedNuma>, j: nat)
    requires j < |numas|
    ensures PmdsRxqs(numas[j].pmds) <= ListRxqs(numas)
  {
    if j < |numas| - 1 {
      NodeRxqsWithin(numas[..|numas| - 1], j);
    }
  }

  lemma SubsetSmaller<T>(a: multiset<T>, b: multiset<T>)
    requires a <= b
    ensures |a| <= |b|
  {
    assert b == a + (b - a);
  }

  /** One greedy step keeps a node balanced, because queues come in order of decreasing cycles. */
  lemma BalancedStep(before: SchedNuma, node: SchedNuma, i: nat, q: Rxq)
    requires i < |before.pmds| && Balanced(before) && PlacedAt(before, node, i, q, Group)
    requires forall k :: 0 <= k < |before.pmds| ==> before.pmds[k].cycles == SumCycles(before.pmds[k].rxqs)
    requires forall k, x :: 0 <= k < |before.pmds| && x in before.pmds[k].rxqs ==> x.cycles >= q.cycles
    ensures Balanced(node)
  {
    var old_i, new_i := before.pmds[i].rxqs, before.pmds[i].rxqs + [q];
    assert new_i[..|old_i|] == old_i;
    assert SumCycles(new_i) == SumCycles(old_i) + q.cycles;
    MinBusyIsLeast(old_i);
    MinBusyIsLeast(new_i);
    assert q.cycles != 0 ==> MinBusy(new_i) == q.cycles;
    assert q.cycles == 0 ==> MinBusy(new_i) == MinBusy(old_i);
    forall a, b | 0 <= a < |node.pmds| && 0 <= b < |node.pmds| && !node.pmds[a].isolated && !node.pmds[b].isolated
      ensures BalancedPair(node.pmds[a], node.pmds[b])
    {
      assert BalancedPair(before.pmds[a], before.pmds[b]);
      SumAtLeastAll(node.pmds[b].rxqs, MinBusy(node.pmds[a].rxqs));
      if a == i && b != i && q.cycles != 0 {
        assert Weight(before.pmds[i], true) <= Weight(before.pmds[b], true);
      }
    }
  }

  lemma StepPlaced(start: seq<SchedNuma>, before: seq<SchedNuma>, after: seq<SchedNuma>, at: nat, i: nat, q: Rxq,
                   algo: Algo, done: seq<Rxq>, open: multiset<Rxq>, all: seq<Rxq>)
    requires AssignInv(start, before, algo, done, open, all) && ValidList(before) && SomeNonIso(before)
    requires at < |before| == |after| && after == before[at := after[at]]
    requires Placed(before, at, i, after[at], q, algo) && ListRxqs(after) == ListRxqs(before) + multiset{q}
    requires !Pinnable(start, q) && open + multiset(done) <= multiset(all)
    requires algo == Group ==> forall x <- done :: x.cycles >= q.cycles
    ensures AssignInv(start, after, algo, done + [q], open, all)
  {
    hide ListRxqs;
    hide ValidList;
    hide Fits;
    hide Balanced;
    hide NodeGood;
    hide GrewBy;
    hide Pinnable;
    hide HasLocalNonIso;
    hide SomeNonIso;
    hide Overfull;
    GrownSameSpots(start, before, before[at]);
    PlacedGood(start, before[at], after[at], i, q, algo);
    forall j | 0 <= j < |after|
      ensures GrewBy(start[j], after[j], done + [q]) && GrownNode(start[j], after[j])
    {
      assert GrownNode(start[j], before[j]) && GrewBy(start[j], before[j], done);
      PlacedGrows(start[j], before[j], after[j], q, done);
    }
    if algo == Group && Fits(all) {
      FitsExact(before, all);
      if Idle(start[at]) {
        IdleGrewBy(start[at], before[at], done);
        BalancedStep(before[at], after[at], i, q);
      }
    }
  }

  lemma IdleGrewBy(a: SchedNuma, b: SchedNuma, done: seq<Rxq>)
    requires |a.pmds| == |b.pmds| && Idle(a) && GrewBy(a, b, done)
    ensures forall k, x :: 0 <= k < |b.pmds| && x in b.pmds[k].rxqs ==> x in done
  {
  }

  lemma PlacedGrows(a: SchedNuma, before: SchedNuma, node: SchedNuma, q: Rxq, done: seq<Rxq>)
    requires GrownNode(a, before) && GrownNode(before, node) && GrewBy(a, before, done)
    requires forall k, x :: 0 <= k < |node.pmds| && x in node.pmds[k].rxqs ==> x in before.pmds[k].rxqs || x == q
    ensures GrewBy(a, node, done + [q]) && GrownNode(a, node)
  {
  }

  lemma PlacedGood(start: seq<SchedNuma>, before: SchedNuma, node: SchedNuma, i: nat, q: Rxq, algo: Algo)
    requires i < |before.pmds| && PlacedAt(before, node, i, q, algo) && NodeGood(start, before)
    requires !Pinnable(start, q) && (before.numaId == q.numaId || !HasLocalNonIso(start, q.numaId))
    ensures NodeGood(start, node) && GrownNode(before, node)
    ensures forall k, x :: 0 <= k < |node.pmds| && x in node.pmds[k].rxqs ==> x in before.pmds[k].rxqs || x == q
  {
    hide Pinnable;
    hide HasLocalNonIso;
    forall k, x | 0 <= k < |node.pmds| && x in node.pmds[k].rxqs
      ensures GoodSpot(start, node.numaId, node.pmds[k], x)
    {
      if x in before.pmds[k].rxqs {
        assert GoodSpot(start, before.numaId, before.pmds[k], x);
      } else {
        assert k == i && x == q;
      }
    }
  }

  lemma StepSkipped(start: seq<SchedNuma>, before: seq<SchedNuma>, after: seq<SchedNuma>, q: Rxq, algo: Algo,
                    done: seq<Rxq>, open: multiset<Rxq>, all: seq<Rxq>)
    requires AssignInv(start, before, algo, done, open, all) && ValidList(before)
    requires Grown(before, after) && forall j :: 0 <= j < |after| ==> after[j].pmds == before[j].pmds
    requires ListRxqs(after) == ListRxqs(before) && open + multiset(done) <= multiset(all)
    requires SomeNonIso(before) ==> algo == Group && Overfull(before)
    ensures AssignInv(start, after, algo, done + [q], open, all)
  {
    hide ListRxqs;
    hide ValidList;
    hide Fits;
    hide Overfull;
    if start != [] {
      GrownSameSpots(start, before, before[0]);
    }
    if algo == Group && Fits(all) {
      FitsExact(before, all);
      forall j | 0 <= j < |after|
        ensures Balanced(before[j]) ==> Balanced(after[j])
      {
      }
    }
    forall j | 0 <= j < |after|
      ensures NodeGood(start, after[j])
    {
      assert NodeGood(start, before[j]);
    }
  }

  /** A PMD is isolated exactly if isolation is on and a queue is pinned to it. */
  ghost predicate IsolationExact(numas: seq<SchedNuma>, iso: bool) {
    forall j, i :: 0 <= j < |numas| && 0 <= i < |numas[j].pmds| ==>
      (numas[j].pmds[i].isolated <==> iso && exists q <- numas[j].pmds[i].rxqs :: Pinnable(numas, q))
  }

  lemma LogStart(numas: seq<SchedNuma>, algo: Algo)
    requires forall j :: 0 <= j < |numas| ==> ValidNode(numas[j]) && numas[j].cur == 0 && numas[j].inc
    ensures LogInv(numas, numas, algo, [], [], None)
  {
    forall j | 0 <= j < |numas|
      ensures InPhase(numas[j], 0, algo.Cycles?)
    {
      assert PhaseAt(numas[j], 0, 0, algo.Cycles?);
    }
  }

  lemma LogDone(pinned: seq<SchedNuma>, numas: seq<SchedNuma>, algo: Algo, order: seq<Rxq>, spots: seq<Option<Spot>>,
                last: Option<nat>)
    ensures LogInv(pinned, numas, algo, order, spots, last) ==> Dealt(pinned, numas, order, spots, algo)
  {
  }

  /** The spot taken is right in the list before the loop just as in the present one: the same PMDs are isolated. */
  lemma ChosenSame(a: seq<SchedNuma>, b: seq<SchedNuma>, numaId: int, last: Option<nat>, j: nat)
    requires Grown(a, b) && NodeChosen(b, numaId, last, j)
    ensures NodeChosen(a, numaId, last, j) && (HasLocalNonIso(a, numaId) <==> HasLocalNonIso(b, numaId))
    ensures SomeNonIso(a)
  {
    hide NodeGood;
    GrownSameSpots(a, b, b[j]);
    forall t | 0 <= t < |a|
      ensures HasNonIso(a[t]) <==> HasNonIso(b[t])
    {
      GrownSameNonIso(a[t], b[t]);
    }
    hide HasNonIso;
    hide Ahead;
  }

  /** The PMD with the least weight is the least loaded by the log. */
  lemma LeastByLog(pinned: SchedNuma, before: SchedNuma, node: SchedNuma, order: seq<Rxq>, spots: seq<Option<Spot>>,
                   j: nat, i: nat, q: Rxq)
    requires |order| == |spots| && GrownNode(pinned, before) && ExactNode(before)
    requires i < |before.pmds| && PlacedAt(before, node, i, q, Group)
    requires NodeHolds(pinned, before, order, spots, j)
    ensures LeastLoaded(pinned, order, spots, j, i, q.cycles != 0)
  {
    hide Held;
    hide SumCycles;
  }

  lemma SpotRight(pinned: seq<SchedNuma>, before: seq<SchedNuma>, after: seq<SchedNuma>, at: nat, i: nat, q: Rxq,
                  algo: Algo, order: seq<Rxq>, spots: seq<Option<Spot>>, last: Option<nat>)
    requires Grown(pinned, before) && LogInv(pinned, before, algo, order, spots, last)
    requires at < |before| == |after|
    requires Placed(before, at, i, after[at], q, algo) && NodeChosen(before, q.numaId, last, at)
    requires algo != Group ==> Dealing(before[at], after[at], i, algo == Cycles)
    requires algo == Group ==> ExactNode(before[at])
    ensures SomeNonIso(pinned) && RightSpot(pinned, order, spots, q, Spot(at, i), algo)
  {
    hide LastCross;
    hide On;
    hide Turns;
    hide InPhase;
    hide InTurn;
    ChosenSame(pinned, before, q.numaId, last, at);
    hide NodeChosen;
    hide SomeNonIso;
    assert GrownNode(pinned[at], before[at]);
    if algo == Group {
      hide RightSpot;
      LeastByLog(pinned[at], before[at], after[at], order, spots, at, i, q);
    } else {
      SameTurn(before[at].pmds, pinned[at].pmds, i, Turns(spots, at), algo.Cycles?);
    }
  }

  /** PMD `k` of node `j` gets the queue if that is its spot; the others keep what they hold. */
  ghost predicate NodeGets(before: SchedNuma, after: SchedNuma, j: nat, q: Rxq, spot: Option<Spot>) {
    |after.pmds| == |before.pmds| && forall k :: 0 <= k < |after.pmds| ==>
      after.pmds[k].rxqs == before.pmds[k].rxqs + if spot == Some(Spot(j, k)) then [q] else []
  }

  /** The log grows by one placement, or by a queue that goes nowhere. */
  lemma LogGrows(pinned: seq<SchedNuma>, before: seq<SchedNuma>, after: seq<SchedNuma>, q: Rxq, spot: Option<Spot>,
                 algo: Algo, order: seq<Rxq>, spots: seq<Option<Spot>>)
    requires Dealt(pinned, before, order, spots, algo) && |before| == |after|
    requires forall j :: 0 <= j < |after| ==> NodeGets(before[j], after[j], j, q, spot)
    requires if SomeNonIso(pinned) then spot.Some? && RightSpot(pinned, order, spots, q, spot.value, algo)
             else spot.None?
    ensures Dealt(pinned, after, order + [q], spots + [spot], algo)
  {
    SpotsGrow(pinned, q, spot, algo, order, spots);
    hide SpotsRight;
    hide NodeHolds;
    hide NodeGets;
    forall j | 0 <= j < |after|
      ensures NodeHolds(pinned[j], after[j], order + [q], spots + [spot], j)
    {
      HoldsMore(pinned[j], before[j], after[j], order, spots, q, spot, j);
    }
  }

  lemma HoldsMore(pinned: SchedNuma, before: SchedNuma, after: SchedNuma, order: seq<Rxq>, spots: seq<Option<Spot>>,
                  q: Rxq, spot: Option<Spot>, j: nat)
    requires |order| == |spots| && NodeHolds(pinned, before, order, spots, j) && NodeGets(before, after, j, q, spot)
    ensures NodeHolds(pinned, after, order + [q], spots + [spot], j)
  {
    hide Held;
    forall k | 0 <= k < |after.pmds|
      ensures after.pmds[k].rxqs == Held(pinned, order + [q], spots + [spot], j, k)
    {
      HeldSnoc(pinned, order, spots, q, spot, j, k);
    }
  }

  lemma HeldSnoc(pinned: SchedNuma, order: seq<Rxq>, spots: seq<Option<Spot>>, q: Rxq, spot: Option<Spot>, j: nat,
                 k: nat)
    requires |order| == |spots| && k < |pinned.pmds|
    ensures Held(pinned, order + [q], spots + [spot], j, k) ==
            Held(pinned, order, spots, j, k) + if spot == Some(Spot(j, k)) then [q] else []
  {
    OnSnoc(order, spots, q, spot);
    hide On;
  }

  lemma SpotsGrow(pinned: seq<SchedNuma>, q: Rxq, spot: Option<Spot>, algo: Algo, order: seq<Rxq>,
                  spots: seq<Option<Spot>>)
    requires |order| == |spots| && SpotsRight(pinned, order, spots, algo)
    requires if SomeNonIso(pinned) then spot.Some? && RightSpot(pinned, order, spots, q, spot.value, algo)
             else spot.None?
    ensures SpotsRight(pinned, order + [q], spots + [spot], algo)
  {
    hide SomeNonIso;
    hide RightSpot;
    var order', spots' := order + [q], spots + [spot];
    forall n | 0 <= n < |order'|
      ensures SpotRightAt(pinned, order', spots', algo, n)
    {
      assert order'[..n] == order[..n] && spots'[..n] == spots[..n];
      if n == |order| {
        assert order[..n] == order && spots[..n] == spots;
      } else {
        assert SpotRightAt(pinned, order, spots, algo, n);
      }
    }
  }

  lemma LastGrows(pinned: seq<SchedNuma>, order: seq<Rxq>, spots: seq<Option<Spot>>, q: Rxq, spot: Spot)
    requires |order| == |spots|
    ensures LastCross(pinned, order + [q], spots + [Some(spot)]) ==
            if HasLocalNonIso(pinned, q.numaId) then LastCross(pinned, order, spots) else Some(spot.node)
  {
    assert (order + [q])[..|order|] == order && (spots + [Some(spot)])[..|spots|] == spots;
  }

  lemma LogPlaced(pinned: seq<SchedNuma>, before: seq<SchedNuma>, after: seq<SchedNuma>, at: nat, i: nat, q: Rxq,
                  algo: Algo, order: seq<Rxq>, spots: seq<Option<Spot>>, last: Option<nat>, last': Option<nat>,
                  open: multiset<Rxq>, all: seq<Rxq>)
    requires AssignInv(pinned, before, algo, order, open, all) && ValidList(before)
    requires open + multiset(order) <= multiset(all) && (algo == Group ==> Fits(all))
    requires LogInv(pinned, before, algo, order, spots, last)
    requires at < |before| == |after| && after == before[at := after[at]]
    requires Placed(before, at, i, after[at], q, algo) && NodeChosen(before, q.numaId, last, at)
    requires last' == if HasLocalNonIso(before, q.numaId) then last else Some(at)
    requires algo != Group ==> Dealing(before[at], after[at], i, algo == Cycles)
    ensures LogInv(pinned, after, algo, order + [q], spots + [Some(Spot(at, i))], last')
  {
    hide *;
    AssignGives(pinned, before, algo, order, open, all);
    if algo == Group {
      FitsExactNode(before, all, at);
    }
    LogAdded(pinned, before, after, at, i, q, algo, order, spots, last, last');
  }

  lemma FitsExactNode(numas: seq<SchedNuma>, all: seq<Rxq>, j: nat)
    requires ValidList(numas) && Fits(all) && ListRxqs(numas) <= multiset(all) && j < |numas|
    ensures ExactNode(numas[j])
  {
    FitsExact(numas, all);
  }

  /** All counters of the node are exact. */
  ghost predicate ExactNode(node: SchedNuma) {
    forall k :: 0 <= k < |node.pmds| ==> node.pmds[k].cycles == SumCycles(node.pmds[k].rxqs)
  }

  lemma LogAdded(pinned: seq<SchedNuma>, before: seq<SchedNuma>, after: seq<SchedNuma>, at: nat, i: nat, q: Rxq,
                 algo: Algo, order: seq<Rxq>, spots: seq<Option<Spot>>, last: Option<nat>, last': Option<nat>)
    requires Grown(pinned, before) && LogInv(pinned, before, algo, order, spots, last)
    requires at < |before| == |after| && after == before[at := after[at]]
    requires Placed(before, at, i, after[at], q, algo) && NodeChosen(before, q.numaId, last, at)
    requires last' == if HasLocalNonIso(before, q.numaId) then last else Some(at)
    requires algo != Group ==> Dealing(before[at], after[at], i, algo == Cycles)
    requires algo == Group ==> ExactNode(before[at])
    ensures LogInv(pinned, after, algo, order + [q], spots + [Some(Spot(at, i))], last')
  {
    hide SumCycles;
    hide On;
    hide Turns;
    hide LastCross;
    hide InPhase;
    hide InTurn;
    SpotRight(pinned, before, after, at, i, q, algo, order, spots, last);
    ChosenSame(pinned, before, q.numaId, last, at);
    hide NodeChosen;
    hide SomeNonIso;
    hide HasLocalNonIso;
    hide RightSpot;
    LogGrows(pinned, before, after, q, Some(Spot(at, i)), algo, order, spots);
    LastGrows(pinned, order, spots, q, Spot(at, i));
    if algo != Group {
      PhasesMove(before, after, at, i, spots, algo);
    }
    hide Dealt;
  }

  lemma PhasesMove(before: seq<SchedNuma>, after: seq<SchedNuma>, at: nat, i: nat, spots: seq<Option<Spot>>, algo: Algo)
    requires at < |before| == |after| && after == before[at := after[at]] && i < |before[at].pmds|
    requires Dealing(before[at], after[at], i, algo == Cycles)
    requires forall j :: 0 <= j < |before| ==> InPhase(before[j], Turns(spots, j), algo.Cycles?)
    ensures forall j :: 0 <= j < |after| ==> InPhase(after[j], Turns(spots + [Some(Spot(at, i))], j), algo.Cycles?)
  {
    hide InPhase;
    hide InTurn;
    assert (spots + [Some(Spot(at, i))])[..|spots|] == spots;
  }

  lemma AssignGives(start: seq<SchedNuma>, numas: seq<SchedNuma>, algo: Algo, done: seq<Rxq>, open: multiset<Rxq>,
                    all: seq<Rxq>)
    requires AssignInv(start, numas, algo, done, open, all) && open + multiset(done) <= multiset(all)
    ensures Grown(start, numas) && ListRxqs(numas) <= multiset(all)
  {
  }

  lemma LogSkipped(pinned: seq<SchedNuma>, before: seq<SchedNuma>, after: seq<SchedNuma>, q: Rxq, algo: Algo,
                   order: seq<Rxq>, spots: seq<Option<Spot>>, last: Option<nat>, last': Option<nat>,
                   open: multiset<Rxq>, all: seq<Rxq>)
    requires AssignInv(pinned, before, algo, order, open, all) && ValidList(before)
    requires open + multiset(order) <= multiset(all) && (algo == Group ==> Fits(all))
    requires LogInv(pinned, before, algo, order, spots, last)
    requires Grown(before, after) && forall j :: 0 <= j < |after| ==> after[j] == before[j]
    requires SomeNonIso(before) ==> algo == Group && Overfull(before)
    ensures LogInv(pinned, after, algo, order + [q], spots + [None], last')
  {
    hide Fits;
    hide ValidList;
    hide AssignInv;
    hide ListRxqs;
    hide Overfull;
    AssignGives(pinned, before, algo, order, open, all);
    if algo == Group {
      FitsExact(before, all);
    }
    hide NodeGood;
    if pinned != [] {
      GrownSameSpots(pinned, before, before[0]);
    }
    hide On;
    hide Turns;
    hide LastCross;
    hide InPhase;
    hide RightSpot;
    OnSnoc(order, spots, q, None);
    LogGrows(pinned, before, after, q, None, algo, order, spots);
    hide Dealt;
  }

  // ---------------------------------------------------------------- a single node

  lemma {:induction false} NoneIsolated(pmds: seq<SchedPmd>)
    requires forall i :: 0 <= i < |pmds| ==> !pmds[i].isolated
    ensures CountIso(pmds) == 0
  {
    if pmds != [] {
      NoneIsolated(pmds[..|pmds| - 1]);
    }
  }

  /** Among PMDs none of which is isolated the turn is the index. */
  lemma FreeTurn(pmds: seq<SchedPmd>, i: nat, t: nat, updown: bool)
    requires i < |pmds| && InTurn(pmds, i, t, updown) && forall k :: 0 <= k < |pmds| ==> !pmds[k].isolated
    ensures i == Turn(t, |pmds|, updown)
  {
    NoneIsolated(pmds);
    NoneIsolated(pmds[..i]);
    assert pmds[..|pmds|] == pmds;
    hide Turn;
  }

  lemma {:induction false} AllTurns(spots: seq<Option<Spot>>, n: nat)
    requires n <= |spots| && forall k :: 0 <= k < n ==> spots[k].Some? && spots[k].value.node == 0
    ensures Turns(spots[..n], 0) == n
  {
    if n > 0 {
      AllTurns(spots, n - 1);
      assert spots[..n][..n - 1] == spots[..n - 1];
    }
  }

  lemma {:induction false} PlacedOn(order: seq<Rxq>, spots: seq<Option<Spot>>, n: nat, j: nat, i: nat)
    requires n < |order| == |spots| && spots[n] == Some(Spot(j, i))
    ensures order[n] in On(order, spots, j, i)
  {
    var m := |order| - 1;
    if n < m {
      PlacedOn(order[..m], spots[..m], n, j, i);
    }
  }

  /** On a single node none of whose k PMDs is isolated, the n-th queue in order goes up and down the PMDs when
      scheduled by cycles, and round them otherwise: to PMD n % k, or to k - 1 - n % k in every second pass. */
  lemma DealtInTurn(pinned: seq<SchedNuma>, numas: seq<SchedNuma>, order: seq<Rxq>, spots: seq<Option<Spot>>,
                    algo: Algo, n: nat)
    requires Grown(pinned, numas) && Dealt(pinned, numas, order, spots, algo) && algo != Group && n < |order|
    requires |numas| == 1 && numas[0].pmds != [] && forall i :: 0 <= i < |numas[0].pmds| ==> !numas[0].pmds[i].isolated
    ensures var k := |numas[0].pmds|;
            var i := if algo == Cycles && n / k % 2 == 1 then k - 1 - n % k else n % k;
            0 <= i < k && spots[n] == Some(Spot(0, i)) && order[n] in numas[0].pmds[i].rxqs
  {
    assert GrownNode(pinned[0], numas[0]);
    assert !pinned[0].pmds[0].isolated;
    assert HasNonIso(pinned[0]);
    assert SomeNonIso(pinned);
    forall k | 0 <= k <= n
      ensures spots[k].Some? && spots[k].value.node == 0
    {
      assert SpotRightAt(pinned, order, spots, algo, k);
    }
    AllTurns(spots, n);
    assert SpotRightAt(pinned, order, spots, algo, n);
    var i := spots[n].value.pmd;
    hide NodeChosen;
    FreeTurn(pinned[0].pmds, i, n, algo.Cycles?);
    PlacedOn(order, spots, n, 0, i);
  }

  /** What scheduling `queues` achieves. */
  ghost predicate Scheduled(numas: seq<SchedNuma>, queues: seq<Rxq>, algo: Algo, iso: bool) {
    && IsolationExact(numas, iso)
    // Every queue that is polled is polled where it may be.
    && (forall j :: 0 <= j < |numas| ==> NodeGood(numas, numas[j]))
    // No queue is invented or polled twice, and no queue is lost if some PMD is not isolated.
    && ListRxqs(numas) <= multiset(queues)
    && (SomeNonIso(numas) && (algo == Group ==> Fits(queues)) ==> ListRxqs(numas) == multiset(queues))
    // If every PMD is isolated, exactly the queues that can be pinned are polled.
    && (!SomeNonIso(numas) ==> forall q <- queues :: q in ListRxqs(numas) <==> Pinnable(numas, q))
    // Group scheduling balances the nodes without pinned queues.
    && (algo == Group && Fits(queues) ==>
          forall j :: 0 <= j < |numas| && NoPinned(numas, numas[j]) ==> Balanced(numas[j]))
  }

  lemma ScheduleDone(start: seq<SchedNuma>, numas: seq<SchedNuma>, rest: seq<Rxq>, queues: seq<Rxq>, algo: Algo,
                     iso: bool)
    requires ListRxqs(start) + multiset(rest) == multiset(queues)
    requires forall q <- rest :: !Pinnable(start, q)
    requires forall j :: 0 <= j < |start| ==> NodePinned(start[j]) && NodeIsolation(start[j], iso)
    requires AssignInv(start, numas, algo, rest, ListRxqs(start), queues)
    ensures Scheduled(numas, queues, algo, iso)
  {
    hide ListRxqs;
    hide Fits;
    hide Balanced;
    hide NodeGood;
    hide Pinnable;
    hide SomeNonIso;
    hide NoPinned;
    hide Idle;
    hide NodePinned;
    hide HasLocalNonIso;
    hide NodeIsolation;
    hide IsolationExact;
    hide GrewBy;
    assert Grown(start, numas);
    IsolationDone(start, numas, rest, iso);
    SameShapeSamePins(start, numas);
    GrownSameLists(start, numas);
    forall q <- queues
      ensures q in ListRxqs(start) || q in rest
    {
      assert q in multiset(queues);
    }
    forall q | q in ListRxqs(start)
      ensures Pinnable(start, q)
    {
      PinnedEverywhere(start, q);
    }
    forall j | 0 <= j < |numas| && NoPinned(numas, numas[j])
      ensures Idle(start[j])
    {
      StartedIdle(start, numas, j);
    }
  }

  lemma GrownSameLists(a: seq<SchedNuma>, b: seq<SchedNuma>)
    requires Grown(a, b)
    ensures SomeNonIso(a) <==> SomeNonIso(b)
    ensures forall j :: 0 <= j < |b| && NodeGood(a, b[j]) ==> NodeGood(b, b[j])
  {
    hide NodeGood;
    hide HasLocalNonIso;
    forall j | 0 <= j < |b|
      ensures SomeNonIso(a) <==> SomeNonIso(b)
      ensures NodeGood(a, b[j]) ==> NodeGood(b, b[j])
    {
      GrownSameSpots(a, b, b[j]);
    }
  }

  lemma IsolationDone(start: seq<SchedNuma>, numas: seq<SchedNuma>, rest: seq<Rxq>, iso: bool)
    requires Grown(start, numas) && forall q <- rest :: !Pinnable(start, q)
    requires forall j :: 0 <= j < |start| ==>
      NodePinned(start[j]) && NodeIsolation(start[j], iso) && GrewBy(start[j], numas[j], rest)
    ensures IsolationExact(numas, iso)
  {
    SameShapeSamePins(start, numas);
    forall j, i | 0 <= j < |numas| && 0 <= i < |numas[j].pmds|
      ensures numas[j].pmds[i].isolated <==> iso && exists q <- numas[j].pmds[i].rxqs :: Pinnable(numas, q)
    {
      assert GrownNode(start[j], numas[j]) && NodeIsolation(start[j], iso) && GrewBy(start[j], numas[j], rest);
      if start[j].pmds[i].rxqs != [] {
        var q := start[j].pmds[i].rxqs[0];
        assert q in start[j].pmds[i].rxqs && q in numas[j].pmds[i].rxqs;
        assert NodePinned(start[j]);
        assert HasCore(start, start[j].pmds[i].core);
        assert Pinnable(numas, q);
      }
    }
  }

  lemma StartedIdle(start: seq<SchedNuma>, numas: seq<SchedNuma>, j: nat)
    requires Grown(start, numas) && j < |start| && NodePinned(start[j]) && NoPinned(numas, numas[j])
    ensures Idle(start[j])
  {
    assert GrownNode(start[j], numas[j]);
    forall i | 0 <= i < |start[j].pmds|
      ensures start[j].pmds[i].rxqs == []
    {
      if start[j].pmds[i].rxqs != [] {
        var q := start[j].pmds[i].rxqs[0];
        assert q in start[j].pmds[i].rxqs && q in numas[j].pmds[i].rxqs;
        assert HasCore(numas, numas[j].pmds[i].core);
        assert Pinnable(numas, q);
      }
    }
  }

  lemma PinnedEverywhere(start: seq<SchedNuma>, q: Rxq)
    requires q in ListRxqs(start)
    requires forall j :: 0 <= j < |start| ==> NodePinned(start[j])
    ensures Pinnable(start, q)
  {
    var j, i := FindRxq(start, q);
    assert NodePinned(start[j]);
    assert HasCore(start, start[j].pmds[i].core);
  }

  lemma {:induction false} FindRxq(numas: seq<SchedNuma>, q: Rxq) returns (j: nat, i: nat)
    requires q in ListRxqs(numas)
    ensures j < |numas| && i < |numas[j].pmds| && q in numas[j].pmds[i].rxqs
  {
    var n := |numas| - 1;
    if q in ListRxqs(numas[..n]) {
      j, i := FindRxq(numas[..n], q);
    } else {
      j := n;
      i := FindRxqOn(numas[n].pmds, q);
    }
  }

  lemma {:induction false} FindRxqOn(pmds: seq<SchedPmd>, q: Rxq) returns (i: nat)
    requires q in PmdsRxqs(pmds)
    ensures i < |pmds| && q in pmds[i].rxqs
  {
    var n := |pmds| - 1;
    if q in PmdsRxqs(pmds[..n]) {
      i := FindRxqOn(pmds[..n], q);
    } else {
      i := n;
    }
  }

  lemma SameShapeSamePins(a: seq<SchedNuma>, b: seq<SchedNuma>)
    requires SameShape(a, b)
    ensures forall q :: Pinnable(a, q) <==> Pinnable(b, q)
  {
    forall core
      ensures HasCore(a, core) <==> HasCore(b, core)
    {
      SameShapeSameCores(a, b, core);
    }
  }

  lemma OneMore(a: multiset<Rxq>, rest: seq<Rxq>, qs: seq<Rxq>, q: Rxq, done: bool)
    requires a + multiset(rest) == multiset(qs)
    ensures a + (if done then multiset{q} else multiset{}) + multiset(if done then rest else rest + [q]) ==
            multiset(qs + [q])
  {
  }

  lemma UnpinnedNext(numas: seq<SchedNuma>, qs: seq<Rxq>, n: nat)
    requires n < |qs|
    ensures Unpinned(numas, qs[..n + 1]) ==
            Unpinned(numas, qs[..n]) + if Pinnable(numas, qs[n]) then [] else [qs[n]]
  {
    assert qs[..n + 1][..n] == qs[..n];
  }

  lemma {:induction false} UnpinnedAre(numas: seq<SchedNuma>, qs: seq<Rxq>)
    ensures forall q <- Unpinned(numas, qs) :: !Pinnable(numas, q)
  {
    if qs != [] {
      UnpinnedAre(numas, qs[..|qs| - 1]);
      hide Pinnable;
    }
  }

  lemma UnpinnedNone(numas: seq<SchedNuma>, qs: seq<Rxq>)
    ensures Unpinned(numas, qs[..0]) == []
  {
  }

  lemma {:induction false} SameUnpinned(a: seq<SchedNuma>, b: seq<SchedNuma>, qs: seq<Rxq>)
    requires SameShape(a, b)
    ensures Unpinned(a, qs) == Unpinned(b, qs)
  {
    if qs != [] {
      SameUnpinned(a, b, qs[..|qs| - 1]);
      SameShapeSamePins(a, b);
      hide Pinnable;
    }
  }

  lemma SameElements(a: seq<Rxq>, b: seq<Rxq>)
    requires multiset(a) == multiset(b)
    ensures forall q :: q in a <==> q in b
  {
    forall q
      ensures q in a <==> q in b
    {
      assert q in multiset(a) <==> q in multiset(b);
    }
  }

  lemma ShapeKept(first: seq<SchedNuma>, start: seq<SchedNuma>, numas: seq<SchedNuma>, algo: Algo, rest: seq<Rxq>,
                  queues: seq<Rxq>)
    requires SameShape(first, start) && AssignInv(start, numas, algo, rest, ListRxqs(start), queues)
    ensures SameShape(first, numas) && Grown(start, numas)
  {
    hide ListRxqs;
    hide NodeGood;
    forall j | 0 <= j < |first|
      ensures SameNode(first[j], numas[j])
    {
      assert SameNode(first[j], start[j]) && GrownNode(start[j], numas[j]);
    }
  }

  lemma NewListsEmpty(numas: seq<SchedNuma>)
    requires forall j :: 0 <= j < |numas| ==> NewNode(numas[j])
    ensures ListRxqs(numas) == multiset{}
  {
    EmptyLists(numas);
  }

  ghost predicate NoPinned(numas: seq<SchedNuma>, node: SchedNuma) {
    forall i, q :: 0 <= i < |node.pmds| && q in node.pmds[i].rxqs ==> !Pinnable(numas, q)
  }

  lemma {:induction false} EmptyLists(numas: seq<SchedNuma>)
    requires forall j :: 0 <= j < |numas| ==> Idle(numas[j])
    ensures ListRxqs(numas) == multiset{}
  {
    if numas != [] {
      EmptyLists(numas[..|numas| - 1]);
      EmptyPmds(numas[|numas| - 1].pmds);
    }
  }

  lemma {:induction false} EmptyPmds(pmds: seq<SchedPmd>)
    requires forall i :: 0 <= i < |pmds| ==> pmds[i].rxqs == []
    ensures PmdsRxqs(pmds) == multiset{}
  {
    if pmds != [] {
      EmptyPmds(pmds[..|pmds| - 1]);
    }
  }

  lemma {:induction false} SameLists(a: seq<SchedNuma>, b: seq<SchedNuma>)
    requires |a| == |b| && forall j :: 0 <= j < |a| ==> a[j].pmds == b[j].pmds
    ensures ListRxqs(a) == ListRxqs(b)
  {
    if a != [] {
      SameLists(a[..|a| - 1], b[..|b| - 1]);
    }
  }

  lemma NewNodesPinned(numas: seq<SchedNuma>, iso: bool)
    requires forall j :: 0 <= j < |numas| ==> NewNode(numas[j])
    ensures forall j :: 0 <= j < |numas| ==> PinReady(numas[j], iso)
  {
  }

  /** Exactly the PMDs with a pinned queue are isolated, if isolation is on. */
  ghost predicate NodeIsolation(node: SchedNuma, iso: bool) {
    forall i :: 0 <= i < |node.pmds| ==> node.pmds[i].isolated == (iso && node.pmds[i].rxqs != [])
  }

  /** A node as the first loop keeps it: only pinned queues, and the walk not begun. */
  ghost predicate PinReady(node: SchedNuma, iso: bool) {
    NodePinned(node) && NodeIsolation(node, iso) && node.cur == 0 && node.inc
  }

  function Weight(p: SchedPmd, hasCyc: bool): nat {
    if hasCyc then p.cycles else |p.rxqs|
  }

  lemma {:induction false} PmdsRxqsSame(a: seq<SchedPmd>, b: seq<SchedPmd>)
    requires |a| == |b| && forall i :: 0 <= i < |a| ==> a[i].rxqs == b[i].rxqs
    ensures PmdsRxqs(a) == PmdsRxqs(b)
  {
    if a != [] {
      PmdsRxqsSame(a[..|a| - 1], b[..|b| - 1]);
    }
  }
}
