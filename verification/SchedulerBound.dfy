/** How good the greedy "group" assignment is: the busiest PMD of a balanced node carries at most
    4/3 - 1/(3m) times the busiest load of any other assignment of the same queues to its m PMDs. */
module SchedulerBound {
  import opened Base
  import opened Scheduler

  // ---------------------------------------------------------------- sums of a weight over queues

  function Sum(w: Rxq -> nat, qs: seq<Rxq>): nat {
    if qs == [] then 0 else Sum(w, qs[..|qs| - 1]) + w(qs[|qs| - 1])
  }

  /** The weight that assignment `f` puts on PMD `j`. */
  function SumUnder(w: Rxq -> nat, qs: seq<Rxq>, f: seq<nat>, j: nat): nat
    requires |qs| == |f|
  {
    if qs == [] then 0
    else
      var n := |qs| - 1;
      SumUnder(w, qs[..n], f[..n], j) + if f[n] == j then w(qs[n]) else 0
  }

  /** The weight on the first `k` PMDs together. */
  function SumBins(w: Rxq -> nat, qs: seq<Rxq>, f: seq<nat>, k: nat): nat
    requires |qs| == |f|
  {
    if k == 0 then 0 else SumBins(w, qs, f, k - 1) + SumUnder(w, qs, f, k - 1)
  }

  lemma {:induction false} SumBinsSnoc(w: Rxq -> nat, qs: seq<Rxq>, f: seq<nat>, k: nat)
    requires |qs| == |f| > 0
    ensures SumBins(w, qs, f, k) ==
            SumBins(w, qs[..|qs| - 1], f[..|qs| - 1], k) + if f[|qs| - 1] < k then w(qs[|qs| - 1]) else 0
  {
    if k > 0 {
      SumBinsSnoc(w, qs, f, k - 1);
    }
  }

  lemma {:induction false} SumBinsEmpty(w: Rxq -> nat, k: nat)
    ensures SumBins(w, [], [], k) == 0
  {
    if k > 0 {
      SumBinsEmpty(w, k - 1);
    }
  }

  /** An assignment to `m` PMDs distributes the whole weight. */
  lemma {:induction false} AssignmentConserves(w: Rxq -> nat, qs: seq<Rxq>, f: seq<nat>, m: nat)
    requires |qs| == |f| && forall i :: 0 <= i < |f| ==> f[i] < m
    ensures SumBins(w, qs, f, m) == Sum(w, qs)
  {
    if qs == [] {
      SumBinsEmpty(w, m);
    } else {
      SumBinsSnoc(w, qs, f, m);
      AssignmentConserves(w, qs[..|qs| - 1], f[..|qs| - 1], m);
    }
  }

  lemma {:induction false} BinsAtMost(w: Rxq -> nat, qs: seq<Rxq>, f: seq<nat>, k: nat, most: nat)
    requires |qs| == |f| && forall j :: 0 <= j < k ==> SumUnder(w, qs, f, j) <= most
    ensures SumBins(w, qs, f, k) <= k * most
  {
    if k > 0 {
      hide SumUnder;
      BinsAtMost(w, qs, f, k - 1, most);
      assert k * most == (k - 1) * most + most;
    }
  }

  // ---------------------------------------------------------------- the weight a node carries

  function SumNode(w: Rxq -> nat, pmds: seq<SchedPmd>): nat {
    if pmds == [] then 0 else SumNode(w, pmds[..|pmds| - 1]) + Sum(w, pmds[|pmds| - 1].rxqs)
  }

  function Flat(pmds: seq<SchedPmd>): seq<Rxq> {
    if pmds == [] then [] else Flat(pmds[..|pmds| - 1]) + pmds[|pmds| - 1].rxqs
  }

  lemma {:induction false} SumConcat(w: Rxq -> nat, a: seq<Rxq>, b: seq<Rxq>)
    ensures Sum(w, a + b) == Sum(w, a) + Sum(w, b)
  {
    if b == [] {
      assert a + b == a;
    } else {
      SumConcat(w, a, b[..|b| - 1]);
      assert (a + b)[..|a + b| - 1] == a + b[..|b| - 1];
    }
  }

  lemma {:induction false} FlatHolds(w: Rxq -> nat, pmds: seq<SchedPmd>)
    ensures multiset(Flat(pmds)) == PmdsRxqs(pmds)
    ensures Sum(w, Flat(pmds)) == SumNode(w, pmds)
  {
    if pmds != [] {
      FlatHolds(w, pmds[..|pmds| - 1]);
      SumConcat(w, Flat(pmds[..|pmds| - 1]), pmds[|pmds| - 1].rxqs);
    }
  }

  lemma {:induction false} SumWithout(w: Rxq -> nat, qs: seq<Rxq>, i: nat)
    requires i < |qs|
    ensures Sum(w, qs) == Sum(w, RemoveAt(qs, i)) + w(qs[i])
  {
    var n := |qs| - 1;
    if i == n {
      assert RemoveAt(qs, i) == qs[..n];
    } else {
      SumWithout(w, qs[..n], i);
      assert RemoveAt(qs, i)[..n - 1] == RemoveAt(qs[..n], i);
    }
  }

  lemma MultisetCancel(a: multiset<Rxq>, b: multiset<Rxq>, q: Rxq)
    requires a + multiset{q} == b + multiset{q}
    ensures a == b
  {
    forall x
      ensures a[x] == b[x]
    {
      assert (a + multiset{q})[x] == (b + multiset{q})[x];
    }
  }

  lemma {:induction false} SumSameElements(w: Rxq -> nat, a: seq<Rxq>, b: seq<Rxq>)
    requires multiset(a) == multiset(b)
    ensures Sum(w, a) == Sum(w, b)
  {
    if a == [] {
      assert |multiset(b)| == 0;
    } else {
      var front, q := a[..|a| - 1], a[|a| - 1];
      assert a == front + [q];
      assert q in multiset(a) && q in multiset(b);
      var i :| 0 <= i < |b| && b[i] == q;
      SumWithout(w, b, i);
      RemoveAtTakesOne(b, i);
      MultisetCancel(multiset(front), multiset(RemoveAt(b, i)), q);
      SumSameElements(w, front, RemoveAt(b, i));
    }
  }

  /** Whatever the assignment, the node carries the weight of the queues. */
  lemma NodeConserves(w: Rxq -> nat, pmds: seq<SchedPmd>, qs: seq<Rxq>, f: seq<nat>)
    requires PmdsRxqs(pmds) == multiset(qs)
    requires |qs| == |f| && forall i :: 0 <= i < |f| ==> f[i] < |pmds|
    ensures SumNode(w, pmds) == SumBins(w, qs, f, |pmds|)
  {
    FlatHolds(w, pmds);
    SumSameElements(w, Flat(pmds), qs);
    AssignmentConserves(w, qs, f, |pmds|);
  }

  /** If every PMD carries at least `least`, and PMD `a` another `extra` on top, the node carries that much. */
  lemma {:induction false} NodeAtLeast(w: Rxq -> nat, pmds: seq<SchedPmd>, least: nat, a: nat, extra: nat)
    requires forall i :: 0 <= i < |pmds| ==> Sum(w, pmds[i].rxqs) >= least + if i == a then extra else 0
    ensures SumNode(w, pmds) >= |pmds| * least + if a < |pmds| then extra else 0
  {
    if pmds != [] {
      var n := |pmds| - 1;
      NodeAtLeast(w, pmds[..n], least, a, extra);
      assert (n + 1) * least == n * least + least;
    }
  }

  // ---------------------------------------------------------------- cycles and big queues

  function CyclesOf(): Rxq -> nat { (q: Rxq) => q.cycles as nat }

  /** Big queues count 1, those of at least `y` cycles 2. */
  function Bigness(c: nat, y: nat): Rxq -> nat {
    (q: Rxq) => if q.cycles < c then 0 else if q.cycles < y then 1 else 2
  }

  lemma {:induction false} CyclesSum(qs: seq<Rxq>)
    ensures Sum(CyclesOf(), qs) == SumCycles(qs)
  {
    if qs != [] {
      CyclesSum(qs[..|qs| - 1]);
    }
  }

  /** A PMD whose big queues come to `y` has two of them, or one of `y`. */
  lemma {:induction false} BigByLoad(qs: seq<Rxq>, c: nat, y: nat)
    requires 0 < c <= y
    ensures Sum(Bigness(c, y), qs) == 0 ==> SumAtLeast(qs, c) == 0
    ensures Sum(Bigness(c, y), qs) == 1 ==> SumAtLeast(qs, c) < y
  {
    if qs != [] {
      BigByLoad(qs[..|qs| - 1], c, y);
    }
  }

  lemma {:induction false} AtLeastWithout(qs: seq<Rxq>, c: nat, i: nat)
    requires i < |qs| && qs[i].cycles >= c
    ensures SumAtLeast(qs, c) == SumAtLeast(RemoveAt(qs, i), c) + qs[i].cycles
  {
    var n := |qs| - 1;
    if i == n {
      assert RemoveAt(qs, i) == qs[..n];
    } else {
      AtLeastWithout(qs[..n], c, i);
      assert RemoveAt(qs, i)[..n - 1] == RemoveAt(qs[..n], i);
    }
  }

  /** What the bigness on a PMD of an assignment says about its load. */
  lemma {:induction false} LoadByBigness(qs: seq<Rxq>, f: seq<nat>, j: nat, c: nat, y: nat)
    requires |qs| == |f| && 0 < c <= y
    ensures var big, load := SumUnder(Bigness(c, y), qs, f, j), SumUnder(CyclesOf(), qs, f, j);
            && (big >= 1 ==> load >= c)
            && (big >= 2 ==> load >= 2 * c || load >= y)
            && (big >= 3 ==> load >= 3 * c || load >= y + c)
  {
    if qs != [] {
      var n := |qs| - 1;
      LoadByBigness(qs[..n], f[..n], j, c, y);
    }
  }

  lemma {:induction false} UnderMember(qs: seq<Rxq>, f: seq<nat>, i: nat)
    requires |qs| == |f| && i < |qs|
    ensures SumUnder(CyclesOf(), qs, f, f[i]) >= qs[i].cycles
  {
    var n := |qs| - 1;
    if i < n {
      UnderMember(qs[..n], f[..n], i);
    }
  }

  // ---------------------------------------------------------------- the bound

  /** `f` gives every queue to one of the PMDs, and none of them gets more than `most`. */
  ghost predicate AssignmentWithin(qs: seq<Rxq>, f: seq<nat>, m: nat, most: nat) {
    && |qs| == |f| && (forall i :: 0 <= i < |f| ==> f[i] < m)
    && forall j :: 0 <= j < m ==> SumUnder(CyclesOf(), qs, f, j) <= most
  }

  ghost predicate FreeAndBalanced(node: SchedNuma, qs: seq<Rxq>) {
    && Balanced(node) && PmdsRxqs(node.pmds) == multiset(qs)
    && forall i :: 0 <= i < |node.pmds| ==> !node.pmds[i].isolated
  }

  /** The bigness on the PMDs of a balanced node, for the smallest queue of PMD `a` and the rest of its load. */
  lemma PmdBigness(node: SchedNuma, a: nat, i: nat)
    requires Balanced(node) && a < |node.pmds| && i < |node.pmds|
    requires !node.pmds[a].isolated && !node.pmds[i].isolated
    requires SumCycles(node.pmds[a].rxqs) > MinBusy(node.pmds[a].rxqs)
    ensures var c := MinBusy(node.pmds[a].rxqs);
            var y := SumCycles(node.pmds[a].rxqs) - c;
            0 < c <= y && Sum(Bigness(c, y), node.pmds[i].rxqs) >= 2 + if i == a then 1 else 0
  {
    var qs := node.pmds[a].rxqs;
    var c := MinBusy(qs);
    var y := SumCycles(qs) - c;
    MinBusyIsLeast(qs);
    SumAtLeastAll(qs, c);
    hide MinBusy;
    hide SumCycles;
    assert BalancedPair(node.pmds[a], node.pmds[i]);
    var q :| q in qs && q.cycles == c;
    var k :| 0 <= k < |qs| && qs[k] == q;
    var rest := RemoveAt(qs, k);
    AtLeastWithout(qs, c, k);
    SumWithout(Bigness(c, y), qs, k);
    AtLeastOne(rest, c);
    BigByLoad(rest, c, y);
    BigByLoad(node.pmds[i].rxqs, c, y);
  }

  lemma {:induction false} AtLeastOne(qs: seq<Rxq>, c: nat)
    ensures SumAtLeast(qs, c) > 0 ==> SumAtLeast(qs, c) >= c
  {
    if qs != [] {
      AtLeastOne(qs[..|qs| - 1], c);
    }
  }

  /** If PMD `a` carries more than any assignment must put on some PMD, then its smallest busy queue is at most a third
      of that: otherwise there are more big queues than the assignment has room for. */
  lemma SmallestAtMostThird(node: SchedNuma, a: nat, qs: seq<Rxq>, f: seq<nat>, most: nat)
    requires FreeAndBalanced(node, qs) && a < |node.pmds|
    requires AssignmentWithin(qs, f, |node.pmds|, most)
    requires SumCycles(node.pmds[a].rxqs) > most && SumCycles(node.pmds[a].rxqs) > MinBusy(node.pmds[a].rxqs)
    ensures 3 * MinBusy(node.pmds[a].rxqs) <= most
  {
    hide Balanced;
    hide MinBusy;
    hide SumCycles;
    hide Sum;
    hide SumUnder;
    var m, c := |node.pmds|, MinBusy(node.pmds[a].rxqs);
    var y := SumCycles(node.pmds[a].rxqs) - c;
    if most < 3 * c {
      forall i | 0 <= i < m
        ensures Sum(Bigness(c, y), node.pmds[i].rxqs) >= 2 + if i == a then 1 else 0
      {
        PmdBigness(node, a, i);
      }
      PmdBigness(node, a, a);
      NodeAtLeast(Bigness(c, y), node.pmds, 2, a, 1);
      forall j | 0 <= j < m
        ensures SumUnder(Bigness(c, y), qs, f, j) <= 2
      {
        LoadByBigness(qs, f, j, c, y);
      }
      BinsAtMost(Bigness(c, y), qs, f, m, 2);
      NodeConserves(Bigness(c, y), node.pmds, qs, f);
    }
  }

  /** No PMD of a balanced node carries more than (4m - 1) / 3m times the busiest load of assignment `f`. */
  lemma GroupNearOptimal(node: SchedNuma, a: nat, qs: seq<Rxq>, f: seq<nat>, most: nat)
    requires FreeAndBalanced(node, qs) && a < |node.pmds|
    requires AssignmentWithin(qs, f, |node.pmds|, most)
    ensures 3 * |node.pmds| * SumCycles(node.pmds[a].rxqs) <= (4 * |node.pmds| - 1) * most
  {
    var m, load, c := |node.pmds|, SumCycles(node.pmds[a].rxqs), MinBusy(node.pmds[a].rxqs);
    MinBusyIsLeast(node.pmds[a].rxqs);
    hide MinBusy;
    hide SumCycles;
    var rest := load - c;
    forall i | 0 <= i < m
      ensures Sum(CyclesOf(), node.pmds[i].rxqs) >= rest + if i == a then c else 0
    {
      CyclesSum(node.pmds[i].rxqs);
      BalancedLoads(node, a, i);
    }
    hide Balanced;
    NodeAtLeast(CyclesOf(), node.pmds, rest, a, c);
    NodeConserves(CyclesOf(), node.pmds, qs, f);
    BinsAtMost(CyclesOf(), qs, f, m, most);
    assert m * rest + c <= m * most;
    SingleWithin(node, a, qs, f, most);
    if load > most {
      SmallestAtMostThird(node, a, qs, f, most);
      ThirdBound(m, load, c, most);
    } else {
      WithinBound(m, load, most);
    }
  }

  /** Group scheduling of a node: if no queue of the node is pinned, its PMDs carry no more than that. */
  lemma ScheduledNearOptimal(numas: seq<SchedNuma>, queues: seq<Rxq>, iso: bool, j: nat, a: nat, qs: seq<Rxq>,
                             f: seq<nat>, most: nat)
    requires Scheduled(numas, queues, Group, iso) && Fits(queues)
    requires j < |numas| && NoPinned(numas, numas[j]) && a < |numas[j].pmds|
    requires multiset(qs) == PmdsRxqs(numas[j].pmds) && AssignmentWithin(qs, f, |numas[j].pmds|, most)
    ensures 3 * |numas[j].pmds| * SumCycles(numas[j].pmds[a].rxqs) <= (4 * |numas[j].pmds| - 1) * most
  {
    hide Balanced;
    hide Pinnable;
    hide Fits;
    hide NodeGood;
    hide ListRxqs;
    hide SomeNonIso;
    hide SumCycles;
    hide AssignmentWithin;
    GroupNearOptimal(numas[j], a, qs, f, most);
  }

  lemma SingleWithin(node: SchedNuma, a: nat, qs: seq<Rxq>, f: seq<nat>, most: nat)
    requires FreeAndBalanced(node, qs) && a < |node.pmds|
    requires AssignmentWithin(qs, f, |node.pmds|, most)
    ensures MinBusy(node.pmds[a].rxqs) <= most
  {
    MinBusyIsLeast(node.pmds[a].rxqs);
    if MinBusy(node.pmds[a].rxqs) != 0 {
      var q :| q in node.pmds[a].rxqs && q.cycles == MinBusy(node.pmds[a].rxqs);
      PmdRxqsWithin(node.pmds, a);
      assert q in multiset(node.pmds[a].rxqs);
      assert q in multiset(qs);
      var i :| 0 <= i < |qs| && qs[i] == q;
      UnderMember(qs, f, i);
    }
  }

  lemma ThirdBound(m: nat, load: nat, c: nat, most: nat)
    requires m >= 1 && c <= load && m * (load - c) + c <= m * most && 3 * c <= most
    ensures 3 * m * load <= (4 * m - 1) * most
  {
    calc {
      3 * m * load;
      3 * (m * (load - c)) + 3 * (m * c);
    <=
      3 * (m * most - c) + 3 * (m * c);
    ==
      3 * (m * most) + (m - 1) * (3 * c);
    <= { assert (m - 1) * (3 * c) <= (m - 1) * most; }
      3 * (m * most) + (m - 1) * most;
      (4 * m - 1) * most;
    }
  }

  lemma WithinBound(m: nat, load: nat, most: nat)
    requires m >= 1 && load <= most
    ensures 3 * m * load <= (4 * m - 1) * most
  {
    assert 3 * m * load <= 3 * m * most;
    assert (4 * m - 1) * most == 3 * m * most + (m - 1) * most;
  }
}
