/** Transmission on a vhost port: the stages that drop packets of a batch, the enqueueing with retries, and what is
    counted and freed. */
module VhostSend {
  /** A packet buffer.  `copyOk`, `hwolOk` and `qosOk` are the answers that copying, the preparation for hardware
      offload and the QoS policy give for it; all answers are possible. */
  datatype Packet = Packet(id: nat, isCopy: bool, dpdk: bool, len: nat, tso: bool, copyOk: bool, hwolOk: bool,
                           qosOk: bool)

  datatype Stage = Mtu(maxLen: nat) | Hwol | Qos

  datatype Drops = Drops(mtu: nat, qos: nat, failure: nat, hwol: nat, retries: nat)

  predicate Good(s: Stage, p: Packet) {
    match s
    case Mtu(max) => !(p.len > max && !p.tso)
    case Hwol => p.hwolOk
    case Qos => p.qosOk
  }

  function Kept(s: Stage, ps: seq<Packet>): (r: seq<Packet>)
    ensures |r| <= |ps|
  {
    if ps == [] then []
    else
      var r := Kept(s, ps[..|ps| - 1]);
      if Good(s, ps[|ps| - 1]) then r + [ps[|ps| - 1]] else r
  }

  /** A copy in DPDK memory, otherwise like the original. */
  function CopyOf(p: Packet): (r: Packet)
    ensures r.isCopy && r.dpdk && r == p.(isCopy := r.isCopy, dpdk := r.dpdk)
  {
    p.(isCopy := true, dpdk := true)
  }

  /** The batch with the packets that are not in DPDK memory replaced by copies, but for those that cannot be copied. */
  function Copied(ps: seq<Packet>): (r: seq<Packet>)
    ensures |r| <= |ps|
  {
    if ps == [] then []
    else
      var p := ps[|ps| - 1];
      var r := Copied(ps[..|ps| - 1]);
      if p.dpdk then r + [p] else if p.copyOk then r + [CopyOf(p)] else r
  }

  /** The copies made. */
  function Copies(ps: seq<Packet>): seq<Packet> {
    if ps == [] then []
    else
      var p := ps[|ps| - 1];
      var r := Copies(ps[..|ps| - 1]);
      if !p.dpdk && p.copyOk then r + [CopyOf(p)] else r
  }

  /** What the next burst takes of `cnt` packets. */
  function Taken(bursts: seq<nat>, cnt: nat): (r: nat)
    ensures r <= cnt
  {
    if bursts == [] then 0 else if bursts[0] < cnt then bursts[0] else cnt
  }

  /** The bursts after the first `k`. */
  function After(bursts: seq<nat>, k: nat): seq<nat> { if k < |bursts| then bursts[k..] else [] }

  /** What the first `k` bursts take of `cnt` packets. */
  function TakenIn(bursts: seq<nat>, cnt: nat, k: nat): (r: nat)
    ensures r <= cnt
  {
    if k == 0 then 0
    else
      var r := TakenIn(bursts, cnt, k - 1);
      r + Taken(After(bursts, k - 1), cnt - r)
  }

  /** Each of the first `n` bursts takes some packets and leaves some. */
  predicate GoesOn(bursts: seq<nat>, cnt: nat, n: nat) {
    forall k :: 1 <= k <= n ==> TakenIn(bursts, cnt, k - 1) < TakenIn(bursts, cnt, k) < cnt
  }

  /** Sending `cnt` packets comes to an end with burst number `calls`: each burst before took some and left some, and
      this one takes the rest, or nothing, or is the last that the retries allow. */
  predicate EndsWith(bursts: seq<nat>, cnt: nat, retriesMax: nat, calls: nat) {
    && 1 <= calls <= retriesMax + 1 && GoesOn(bursts, cnt, calls - 1)
    && (TakenIn(bursts, cnt, calls) in {cnt, TakenIn(bursts, cnt, calls - 1)} || calls == retriesMax + 1)
  }

  function Bytes(ps: seq<Packet>): nat {
    if ps == [] then 0 else Bytes(ps[..|ps| - 1]) + ps[|ps| - 1].len
  }

  /** The configuration that a send reads. */
  datatype Config = Config(up: bool, maxLen: nat, tso: bool, retriesMax: nat)

  /** The batch after copying, and after all stages. */
  function AfterCopy(ps: seq<Packet>): seq<Packet> {
    if ps != [] && !ps[0].dpdk then Copied(ps) else ps
  }

  function CopiesMade(ps: seq<Packet>): seq<Packet> {
    if ps != [] && !ps[0].dpdk then Copies(ps) else []
  }

  function AfterMtu(ps: seq<Packet>, c: Config): seq<Packet> { Kept(Mtu(c.maxLen), AfterCopy(ps)) }

  function AfterHwol(ps: seq<Packet>, c: Config): seq<Packet> {
    if c.tso then Kept(Hwol, AfterMtu(ps, c)) else AfterMtu(ps, c)
  }

  function ToSend(ps: seq<Packet>, c: Config): seq<Packet> { Kept(Qos, AfterHwol(ps, c)) }

  class VhostDev {
    var txPackets: nat
    var txDropped: nat
    var txBytes: nat
    var drops: Drops
    /** What has been freed, and what the guest has been given. */
    var freed: multiset<Packet>
    var enqueued: seq<Packet>
    /** How many packets the guest takes in each burst from now on. */
    var bursts: seq<nat>

    constructor (bursts: seq<nat>)
      ensures txPackets == txDropped == txBytes == 0 && drops == Drops(0, 0, 0, 0, 0)
      ensures freed == multiset{} && enqueued == [] && this.bursts == bursts
    {
      txPackets, txDropped, txBytes, drops, freed, enqueued := 0, 0, 0, Drops(0, 0, 0, 0, 0), multiset{}, [];
      this.bursts := bursts;
    }

    /** The loop of netdev_dpdk_filter_packet_len(), netdev_dpdk_prep_hwol_batch() and the QoS policers: bad packets are
        freed, the others move up. */
    method Filter(s: Stage, pkts: array<Packet>, pktCnt: nat) returns (cnt: nat)
      requires pktCnt <= pkts.Length
      modifies this`freed, pkts
      ensures cnt <= pktCnt && pkts[..cnt] == Kept(s, old(pkts[..pktCnt]))
      ensures freed == old(freed) + Rejected(s, old(pkts[..pktCnt]))
    {
      hide Kept;
      hide Rejected;
      ghost var was := pkts[..pktCnt];
      cnt := 0;
      FilterStart(s, was);
      for i := 0 to pktCnt
        invariant cnt <= i && pkts[..cnt] == Kept(s, was[..i])
        invariant forall k :: i <= k < pktCnt ==> pkts[k] == was[k]
        invariant freed == old(freed) + Rejected(s, was[..i])
      {
        var pkt := pkts[i];
        FilterNext(s, was, i);
        if !Good(s, pkt) {
          freed := freed + multiset{pkt};
        } else {
          ghost var before := pkts[..cnt];
          if i != cnt {
            pkts[cnt] := pkt;
          }
          cnt := cnt + 1;
          assert pkts[..cnt] == before + [pkt];
        }
      }
      assert was[..pktCnt] == was;
    }

    /** dpdk_copy_batch_to_mbuf(): the originals are freed, also those that could not be copied. */
    method CopyBatch(pkts: array<Packet>) returns (cnt: nat)
      modifies this`freed, pkts
      ensures cnt <= pkts.Length && pkts[..cnt] == Copied(old(pkts[..]))
      ensures freed == old(freed) + Originals(old(pkts[..]))
    {
      hide Copied;
      hide Originals;
      ghost var was := pkts[..];
      cnt := 0;
      CopyStart(was);
      for i := 0 to pkts.Length
        invariant cnt <= i && pkts[..cnt] == Copied(was[..i])
        invariant forall k :: i <= k < pkts.Length ==> pkts[k] == was[k]
        invariant freed == old(freed) + Originals(was[..i])
      {
        var pkt := pkts[i];
        CopyNext(was, i);
        ghost var before := pkts[..cnt];
        if pkt.dpdk {
          pkts[cnt] := pkt;
          cnt := cnt + 1;
          assert pkts[..cnt] == before + [pkt];
        } else {
          if pkt.copyOk {
            pkts[cnt] := CopyOf(pkt);
            cnt := cnt + 1;
            assert pkts[..cnt] == before + [CopyOf(pkt)];
          }
          freed := freed + multiset{pkt};
        }
      }
      assert was[..pkts.Length] == was;
    }

    /** A batch is copied if its first packet is not in DPDK memory. */
    method CopyIfNeeded(pkts: array<Packet>) returns (cnt: nat)
      requires pkts.Length > 0
      modifies this`freed, pkts
      ensures cnt <= pkts.Length && pkts[..cnt] == AfterCopy(old(pkts[..]))
      ensures freed == old(freed) + FreedInCopy(old(pkts[..]))
    {
      cnt := pkts.Length;
      if !pkts[0].dpdk {
        cnt := CopyBatch(pkts);
      } else {
        NothingAdded(freed);
        assert pkts[..cnt] == pkts[..];
      }
    }

    /** Packets are prepared for hardware offload if userspace TSO is enabled. */
    method PrepHwol(pkts: array<Packet>, c: Config, pktCnt: nat) returns (cnt: nat)
      requires pktCnt <= pkts.Length
      modifies this`freed, pkts
      ensures cnt <= pktCnt
      ensures pkts[..cnt] == if c.tso then Kept(Hwol, old(pkts[..pktCnt])) else old(pkts[..pktCnt])
      ensures freed == old(freed) + if c.tso then Rejected(Hwol, old(pkts[..pktCnt])) else multiset{}
    {
      cnt := pktCnt;
      if c.tso {
        cnt := Filter(Hwol, pkts, pktCnt);
      } else {
        NothingAdded(freed);
      }
    }

    /** netdev_dpdk_common_send(): `d` counts the packets that each stage drops. */
    method CommonSend(pkts: array<Packet>, c: Config) returns (cnt: nat, d: Drops)
      requires pkts.Length > 0
      modifies this`freed, pkts
      ensures cnt <= pkts.Length && pkts[..cnt] == ToSend(old(pkts[..]), c)
      ensures freed == old(freed) + FreedBefore(old(pkts[..]), c)
      ensures d == DropsBefore(old(pkts[..]), c)
    {
      hide *;
      ghost var batch := pkts[..];
      StagesAre(batch, c);
      FreedAdd(freed, batch, c);
      var n := pkts.Length;
      var copied := CopyIfNeeded(pkts);
      assert copied == |AfterCopy(batch)|;
      var short := Filter(Mtu(c.maxLen), pkts, copied);
      assert short == |AfterMtu(batch, c)|;
      var prepared := PrepHwol(pkts, c, short);
      assert prepared == |AfterHwol(batch, c)|;
      cnt := Filter(Qos, pkts, prepared);
      assert cnt == |ToSend(batch, c)|;
      d := Drops(copied - short, prepared - cnt, n - copied, short - prepared, 0);
    }

    /** rte_vhost_enqueue_burst(): the guest takes as many packets of the burst as it likes, from the front. */
    method EnqueueBurst(pkts: array<Packet>, from: nat, cnt: nat) returns (sent: nat)
      requires from + cnt <= pkts.Length
      modifies this`enqueued, this`bursts
      ensures sent == Taken(old(bursts), cnt) && enqueued == old(enqueued) + pkts[from..from + sent]
      ensures bursts == if old(bursts) == [] then [] else old(bursts)[1..]
    {
      sent := if bursts == [] then 0 else if bursts[0] < cnt then bursts[0] else cnt;
      bursts := if bursts == [] then [] else bursts[1..];
      enqueued := enqueued + pkts[from..from + sent];
    }

    /** Burst number `calls` of those that enqueue `n` packets, of which `left` are left. */
    method NextBurst(pkts: array<Packet>, n: nat, left: nat, ghost calls: nat, ghost first: seq<nat>,
                     ghost before: seq<Packet>) returns (sent: nat)
      requires left <= n <= pkts.Length && bursts == After(first, calls) && n - left == TakenIn(first, n, calls)
      requires enqueued == before + pkts[..][..n - left]
      modifies this`enqueued, this`bursts
      ensures sent <= left && n - left + sent == TakenIn(first, n, calls + 1) && bursts == After(first, calls + 1)
      ensures enqueued == before + pkts[..][..n - left + sent]
    {
      hide TakenIn;
      hide After;
      TakenNext(first, n, calls);
      SlicesJoin(before, pkts[..], n - left, n - left + Taken(bursts, left));
      sent := EnqueueBurst(pkts, n - left, left);
      assert pkts[n - left..n - left + sent] == pkts[..][n - left..n - left + sent];
    }

    /** The enqueueing with retries: it goes on until everything is sent, a burst sends nothing, or the retries are used
        up.  `left` packets are not sent after `calls` bursts. */
    method Enqueue(pkts: array<Packet>, n: nat, c: Config) returns (left: nat, retries: nat, ghost calls: nat)
      requires n <= pkts.Length
      modifies this`enqueued, this`bursts
      ensures left <= n && enqueued == old(enqueued) + pkts[..n - left]
      ensures EndsWith(old(bursts), n, c.retriesMax, calls) && n - left == TakenIn(old(bursts), n, calls)
      ensures retries == calls - 1
    {
      var maxRetries := 0;
      var tries := 0;
      left, calls := n, 0;
      SlicesJoin(enqueued, pkts[..], 0, 0);
      hide TakenIn;
      hide Taken;
      hide After;
      hide GoesOn;
      hide EndsWith;
      TakenNext(bursts, n, 0);
      NoneGone(bursts, n);
      var going := true;
      while going
        invariant left <= n && enqueued == old(enqueued) + pkts[..][..n - left]
        invariant bursts == After(old(bursts), calls) && n - left == TakenIn(old(bursts), n, calls)
        invariant going ==> tries == calls <= maxRetries && GoesOn(old(bursts), n, calls)
        invariant going ==> if tries > 0 then maxRetries == c.retriesMax && left > 0 else maxRetries == 0
        invariant !going ==> EndsWith(old(bursts), n, c.retriesMax, calls)
        invariant !going ==> calls - 1 == if tries < maxRetries then tries else maxRetries
        decreases if going then 1 + left else 0
      {
        GoneOn(old(bursts), n, calls);
        var sent := NextBurst(pkts, n, left, calls, old(bursts), old(enqueued));
        calls := calls + 1;
        if sent == 0 {
          going := false;
        } else {
          left := left - sent;
          if left > 0 && tries == 0 {
            maxRetries := c.retriesMax;
          }
          if left == 0 {
            going := false;
          } else {
            tries := tries + 1;
            going := tries <= maxRetries;
          }
        }
        if !going {
          Ends(old(bursts), n, c.retriesMax, calls);
        }
      }
      assert pkts[..][..n - left] == pkts[..n - left];
      retries := if tries < maxRetries then tries else maxRetries;
    }

    /** netdev_dpdk_vhost_update_tx_counters(). */
    method UpdateTxCounters(pkts: array<Packet>, attempted: nat, d: Drops)
      requires Dropped(d) <= attempted && attempted - Dropped(d) <= pkts.Length
      modifies this`txPackets, this`txDropped, this`txBytes, this`drops
      ensures txPackets == old(txPackets) + (attempted - Dropped(d)) && txDropped == old(txDropped) + Dropped(d)
      ensures txBytes == old(txBytes) + Bytes(pkts[..attempted - Dropped(d)]) && drops == AddDrops(old(drops), d)
    {
      var dropped := Dropped(d);
      var sent := attempted - dropped;
      txPackets := txPackets + sent;
      txDropped := txDropped + dropped;
      for i := 0 to sent
        invariant txBytes == old(txBytes) + Bytes(pkts[..i])
        invariant txPackets == old(txPackets) + sent && txDropped == old(txDropped) + dropped && drops == old(drops)
      {
        assert pkts[..i + 1][..i] == pkts[..i];
        txBytes := txBytes + pkts[i].len;
      }
      if dropped > 0 || d.retries > 0 {
        drops := Drops(drops.mtu + d.mtu, drops.qos + d.qos, drops.failure + d.failure, drops.hwol + d.hwol,
                       drops.retries + d.retries);
      }
    }

    /** Enqueues what is left of the batch, and counts. */
    method SendReady(pkts: array<Packet>, cnt: nat, c: Config, d: Drops) returns (ghost sent: nat, ghost calls: nat)
      requires cnt <= pkts.Length && Dropped(d) + cnt == pkts.Length && d.retries == 0
      modifies this`enqueued, this`bursts, this`txPackets, this`txDropped, this`txBytes, this`drops
      ensures EndsWith(old(bursts), cnt, c.retriesMax, calls) && sent == TakenIn(old(bursts), cnt, calls)
      ensures enqueued == old(enqueued) + pkts[..cnt][..sent]
      ensures txPackets == old(txPackets) + sent && txDropped == old(txDropped) + (pkts.Length - sent)
      ensures txBytes == old(txBytes) + Bytes(pkts[..cnt][..sent])
      ensures drops == AddDrops(old(drops), d.(failure := d.failure + (cnt - sent), retries := calls - 1))
    {
      hide Bytes;
      hide AddDrops;
      var left, retries;
      left, retries, calls := Enqueue(pkts, cnt, c);
      sent := cnt - left;
      assert pkts[..cnt][..sent] == pkts[..sent];
      UpdateTxCounters(pkts, pkts.Length, d.(failure := d.failure + left, retries := retries));
    }

    /** netdev_dpdk_vhost_send() on a running device. */
    method SendRunning(pkts: array<Packet>, c: Config) returns (ghost sent: nat, ghost calls: nat)
      requires pkts.Length > 0
      modifies this, pkts
      ensures EndsWith(old(bursts), |ToSend(old(pkts[..]), c)|, c.retriesMax, calls)
      ensures sent == TakenIn(old(bursts), |ToSend(old(pkts[..]), c)|, calls)
      ensures enqueued == old(enqueued) + ToSend(old(pkts[..]), c)[..sent]
      ensures txPackets == old(txPackets) + sent && txDropped == old(txDropped) + (pkts.Length - sent)
      ensures txBytes == old(txBytes) + Bytes(ToSend(old(pkts[..]), c)[..sent])
      ensures freed == old(freed) + multiset(old(pkts[..])) + multiset(CopiesMade(old(pkts[..])))
      ensures drops == AddDrops(old(drops), DropsOf(old(pkts[..]), c, sent, calls))
    {
      hide *;
      ghost var batch := pkts[..];
      FreedTogether(freed, batch, c);
      var cnt, d := CommonSend(pkts, c);
      BeforeSend(batch, c);
      sent, calls := SendReady(pkts, cnt, c, d);
      TakenAtMost(old(bursts), cnt, c.retriesMax, calls);
      SentDrops(batch, c, sent, calls);
      freed := freed + multiset(pkts[..cnt]);
    }

    /** netdev_dpdk_vhost_send(). */
    method Send(pkts: array<Packet>, c: Config) returns (ghost sent: nat, ghost calls: nat)
      requires c.up ==> pkts.Length > 0
      modifies this, pkts
      ensures sent <= |ToSend(old(pkts[..]), c)| && (!c.up ==> sent == 0)
      ensures enqueued == old(enqueued) + ToSend(old(pkts[..]), c)[..sent]
      ensures txPackets == old(txPackets) + sent && txDropped == old(txDropped) + (pkts.Length - sent)
      ensures txBytes == old(txBytes) + Bytes(ToSend(old(pkts[..]), c)[..sent])
      ensures freed == old(freed) + multiset(old(pkts[..])) +
                       if c.up then multiset(CopiesMade(old(pkts[..]))) else multiset{}
      ensures c.up ==> EndsWith(old(bursts), |ToSend(old(pkts[..]), c)|, c.retriesMax, calls) &&
                       sent == TakenIn(old(bursts), |ToSend(old(pkts[..]), c)|, calls)
      ensures drops == if c.up then AddDrops(old(drops), DropsOf(old(pkts[..]), c, sent, calls)) else old(drops)
    {
      hide ToSend;
      hide DropsOf;
      hide AddDrops;
      hide CopiesMade;
      hide Bytes;
      if c.up {
        sent, calls := SendRunning(pkts, c);
      } else {
        NoBytes(ToSend(pkts[..], c));
        txDropped := txDropped + pkts.Length;
        freed := freed + multiset(pkts[..]);
        NothingAdded(freed);
        sent, calls := 0, 0;
      }
    }
  }

  /** The packets dropped before enqueueing, by stage. */
  function DropsBefore(ps: seq<Packet>, c: Config): Drops {
    Drops(|AfterCopy(ps)| - |AfterMtu(ps, c)|, |AfterHwol(ps, c)| - |ToSend(ps, c)|, |ps| - |AfterCopy(ps)|,
          |AfterMtu(ps, c)| - |AfterHwol(ps, c)|, 0)
  }

  /** The counts of a whole send. */
  function DropsOf(ps: seq<Packet>, c: Config, sent: nat, calls: nat): Drops
    requires sent <= |ToSend(ps, c)| && calls > 0
  {
    var d := DropsBefore(ps, c);
    d.(failure := d.failure + (|ToSend(ps, c)| - sent), retries := calls - 1)
  }

  function AddDrops(a: Drops, b: Drops): Drops {
    Drops(a.mtu + b.mtu, a.qos + b.qos, a.failure + b.failure, a.hwol + b.hwol, a.retries + b.retries)
  }

  /** All packets counted as dropped. */
  function Dropped(d: Drops): nat { d.mtu + d.qos + d.failure + d.hwol }

  lemma BeforeSend(ps: seq<Packet>, c: Config)
    ensures Dropped(DropsBefore(ps, c)) + |ToSend(ps, c)| == |ps| && DropsBefore(ps, c).retries == 0
  {
  }

  lemma TakenAtMost(bursts: seq<nat>, cnt: nat, retriesMax: nat, calls: nat)
    ensures TakenIn(bursts, cnt, calls) <= cnt && (EndsWith(bursts, cnt, retriesMax, calls) ==> calls > 0)
  {
  }

  lemma SlicesJoin(before: seq<Packet>, ps: seq<Packet>, a: nat, b: nat)
    requires a <= b <= |ps|
    ensures before + ps[..a] + ps[a..b] == before + ps[..b] && before + ps[..0] == before
  {
    assert ps[..a] + ps[a..b] == ps[..b];
  }

  lemma NoneGone(bursts: seq<nat>, cnt: nat)
    ensures GoesOn(bursts, cnt, 0)
  {
  }

  lemma GoneOn(bursts: seq<nat>, cnt: nat, n: nat)
    requires GoesOn(bursts, cnt, n)
    ensures TakenIn(bursts, cnt, n) < TakenIn(bursts, cnt, n + 1) < cnt ==> GoesOn(bursts, cnt, n + 1)
  {
    hide TakenIn;
  }

  lemma Ends(bursts: seq<nat>, cnt: nat, retriesMax: nat, calls: nat)
    requires 1 <= calls <= retriesMax + 1 && GoesOn(bursts, cnt, calls - 1)
    requires
      TakenIn(bursts, cnt, calls) in {cnt, TakenIn(bursts, cnt, calls - 1)} || calls == retriesMax + 1
    ensures EndsWith(bursts, cnt, retriesMax, calls)
  {
  }

  lemma TakenNext(bursts: seq<nat>, cnt: nat, k: nat)
    ensures TakenIn(bursts, cnt, k + 1) ==
            TakenIn(bursts, cnt, k) + Taken(After(bursts, k), cnt - TakenIn(bursts, cnt, k))
    ensures TakenIn(bursts, cnt, 0) == 0 && After(bursts, 0) == bursts
    ensures After(bursts, k + 1) == if After(bursts, k) == [] then [] else After(bursts, k)[1..]
  {
  }

  lemma SentDrops(ps: seq<Packet>, c: Config, sent: nat, calls: nat)
    requires sent <= |ToSend(ps, c)| && calls > 0
    ensures var d := DropsBefore(ps, c);
            DropsOf(ps, c, sent, calls) == d.(failure := d.failure + (|ToSend(ps, c)| - sent), retries := calls - 1)
  {
  }

  lemma NoBytes(ps: seq<Packet>)
    ensures Bytes(ps[..0]) == 0
  {
  }

  lemma FreedTogether(f: multiset<Packet>, ps: seq<Packet>, c: Config)
    ensures f + FreedBefore(ps, c) + multiset(ToSend(ps, c)) == f + multiset(ps) + multiset(CopiesMade(ps))
  {
    hide *;
    EachFreedOnce(ps, c);
    Reassociate(f, FreedBefore(ps, c), multiset(ToSend(ps, c)), multiset(ps), multiset(CopiesMade(ps)));
  }

  lemma Reassociate(f: multiset<Packet>, a: multiset<Packet>, b: multiset<Packet>, x: multiset<Packet>,
                    y: multiset<Packet>)
    requires a + b == x + y
    ensures f + a + b == f + x + y
  {
    assert f + a + b == f + (a + b);
  }

  /** Each packet of the batch and each copy made is freed exactly once. */
  lemma EachFreedOnce(ps: seq<Packet>, c: Config)
    ensures FreedBefore(ps, c) + multiset(ToSend(ps, c)) == multiset(ps) + multiset(CopiesMade(ps))
  {
    hide Kept;
    hide Rejected;
    hide Copied;
    hide Originals;
    hide Copies;
    CopiedOnce(ps);
    KeptOrRejected(Mtu(c.maxLen), AfterCopy(ps));
    KeptOrRejected(Hwol, AfterMtu(ps, c));
    KeptOrRejected(Qos, AfterHwol(ps, c));
    var a, b, d, e := FreedInCopy(ps), Rejected(Mtu(c.maxLen), AfterCopy(ps)), FreedInHwol(ps, c),
          Rejected(Qos, AfterHwol(ps, c));
    SumsOnce(multiset(ps) + multiset(CopiesMade(ps)), a, multiset(AfterCopy(ps)), b, multiset(AfterMtu(ps, c)), d,
             multiset(AfterHwol(ps, c)), e, multiset(ToSend(ps, c)));
  }

  lemma SumsOnce(all: multiset<Packet>, a: multiset<Packet>, x: multiset<Packet>, b: multiset<Packet>,
                 y: multiset<Packet>, d: multiset<Packet>, z: multiset<Packet>, e: multiset<Packet>,
                 w: multiset<Packet>)
    requires all == a + x && x == b + y && y == d + z && z == e + w
    ensures a + b + d + e + w == all
  {
    assert a + b + d + e + w == a + (b + (d + (e + w)));
  }

  lemma CopiedOnce(ps: seq<Packet>)
    ensures multiset(ps) + multiset(CopiesMade(ps)) == FreedInCopy(ps) + multiset(AfterCopy(ps))
  {
    if ps != [] && !ps[0].dpdk {
      CopyOnce(ps);
    }
  }

  lemma {:induction false} CopyOnce(ps: seq<Packet>)
    ensures multiset(ps) + multiset(Copies(ps)) == Originals(ps) + multiset(Copied(ps))
  {
    if ps != [] {
      var rest, p := ps[..|ps| - 1], ps[|ps| - 1];
      CopyOnce(rest);
      CopySnoc(ps);
      hide Copied;
      hide Copies;
      hide Originals;
      SnocMultiset(rest, p);
      SnocMultiset(Copied(rest), p);
      SnocMultiset(Copied(rest), CopyOf(p));
      SnocMultiset(Copies(rest), CopyOf(p));
      AddTo(multiset(rest), multiset(Copies(rest)), Originals(rest), multiset(Copied(rest)), multiset{p},
            multiset{CopyOf(p)});
    }
  }

  lemma AddTo(m: multiset<Packet>, q: multiset<Packet>, o: multiset<Packet>, r: multiset<Packet>, x: multiset<Packet>,
              y: multiset<Packet>)
    requires m + q == o + r
    ensures m + x + q == o + (r + x) == o + x + r && m + x + (q + y) == o + x + (r + y)
  {
    assert m + x + q == m + q + x;
    assert o + (r + x) == o + r + x;
    assert o + x + r == o + r + x;
    assert m + x + (q + y) == m + q + x + y;
    assert o + x + (r + y) == o + r + x + y;
  }

  lemma CopySnoc(ps: seq<Packet>)
    requires ps != []
    ensures var rest, p := ps[..|ps| - 1], ps[|ps| - 1];
            && multiset(ps) == multiset(rest + [p])
            && Copied(ps) == (if p.dpdk then Copied(rest) + [p] else if p.copyOk then Copied(rest) + [CopyOf(p)]
                              else Copied(rest))
            && Copies(ps) == (if !p.dpdk && p.copyOk then Copies(rest) + [CopyOf(p)] else Copies(rest))
            && Originals(ps) == (if p.dpdk then Originals(rest) else Originals(rest) + multiset{p})
  {
    assert ps == ps[..|ps| - 1] + [ps[|ps| - 1]];
  }

  lemma {:induction false} KeptOrRejected(s: Stage, ps: seq<Packet>)
    ensures multiset(ps) == Rejected(s, ps) + multiset(Kept(s, ps))
  {
    if ps != [] {
      var rest, p := ps[..|ps| - 1], ps[|ps| - 1];
      KeptOrRejected(s, rest);
      assert ps == rest + [p];
      SnocMultiset(rest, p);
      SnocMultiset(Kept(s, rest), p);
    }
  }

  lemma SnocMultiset(ps: seq<Packet>, p: Packet)
    ensures multiset(ps + [p]) == multiset(ps) + multiset{p}
  {
  }

  /** The packets that the stage frees. */
  function Rejected(s: Stage, ps: seq<Packet>): multiset<Packet> {
    if ps == [] then multiset{}
    else
      var r := Rejected(s, ps[..|ps| - 1]);
      if Good(s, ps[|ps| - 1]) then r else r + multiset{ps[|ps| - 1]}
  }

  /** The packets that copying frees. */
  function Originals(ps: seq<Packet>): multiset<Packet> {
    if ps == [] then multiset{}
    else
      var r := Originals(ps[..|ps| - 1]);
      if ps[|ps| - 1].dpdk then r else r + multiset{ps[|ps| - 1]}
  }

  function FreedInCopy(ps: seq<Packet>): multiset<Packet> {
    if ps != [] && !ps[0].dpdk then Originals(ps) else multiset{}
  }

  function FreedInHwol(ps: seq<Packet>, c: Config): multiset<Packet> {
    if c.tso then Rejected(Hwol, AfterMtu(ps, c)) else multiset{}
  }

  /** What is freed before enqueueing. */
  function FreedBefore(ps: seq<Packet>, c: Config): multiset<Packet> {
    FreedInCopy(ps) + Rejected(Mtu(c.maxLen), AfterCopy(ps)) + FreedInHwol(ps, c) + Rejected(Qos, AfterHwol(ps, c))
  }

  lemma StagesAre(ps: seq<Packet>, c: Config)
    requires ps != []
    ensures AfterCopy(ps) == (if !ps[0].dpdk then Copied(ps) else ps)
    ensures FreedInCopy(ps) == (if !ps[0].dpdk then Originals(ps) else multiset{})
    ensures AfterMtu(ps, c) == Kept(Mtu(c.maxLen), AfterCopy(ps))
    ensures AfterHwol(ps, c) == (if c.tso then Kept(Hwol, AfterMtu(ps, c)) else AfterMtu(ps, c))
    ensures FreedInHwol(ps, c) == (if c.tso then Rejected(Hwol, AfterMtu(ps, c)) else multiset{})
    ensures ToSend(ps, c) == Kept(Qos, AfterHwol(ps, c))
    ensures DropsBefore(ps, c) ==
            Drops(|AfterCopy(ps)| - |AfterMtu(ps, c)|, |AfterHwol(ps, c)| - |ToSend(ps, c)|, |ps| - |AfterCopy(ps)|,
                  |AfterMtu(ps, c)| - |AfterHwol(ps, c)|, 0)
  {
  }

  lemma FreedAdd(f: multiset<Packet>, ps: seq<Packet>, c: Config)
    ensures f + FreedInCopy(ps) + Rejected(Mtu(c.maxLen), AfterCopy(ps)) + FreedInHwol(ps, c)
            + Rejected(Qos, AfterHwol(ps, c))
            == f + FreedBefore(ps, c)
    ensures f + multiset{} == f
  {
  }

  lemma NothingAdded(f: multiset<Packet>)
    ensures f + multiset{} == f
  {
  }

  lemma FilterStart(s: Stage, ps: seq<Packet>)
    ensures Kept(s, ps[..0]) == [] && Rejected(s, ps[..0]) == multiset{}
  {
  }

  lemma FilterNext(s: Stage, ps: seq<Packet>, i: nat)
    requires i < |ps|
    ensures Kept(s, ps[..i + 1]) == if Good(s, ps[i]) then Kept(s, ps[..i]) + [ps[i]] else Kept(s, ps[..i])
    ensures Rejected(s, ps[..i + 1]) == if Good(s, ps[i]) then Rejected(s, ps[..i])
            else Rejected(s, ps[..i]) + multiset{ps[i]}
  {
    assert ps[..i + 1][..i] == ps[..i];
  }

  lemma CopyStart(ps: seq<Packet>)
    ensures Copied(ps[..0]) == [] && Originals(ps[..0]) == multiset{}
  {
  }

  lemma CopyNext(ps: seq<Packet>, i: nat)
    requires i < |ps|
    ensures Copied(ps[..i + 1]) == if ps[i].dpdk then Copied(ps[..i]) + [ps[i]]
                                   else if ps[i].copyOk then Copied(ps[..i]) + [CopyOf(ps[i])] else Copied(ps[..i])
    ensures Originals(ps[..i + 1]) == if ps[i].dpdk then Originals(ps[..i]) else Originals(ps[..i]) + multiset{ps[i]}
  {
    assert ps[..i + 1][..i] == ps[..i];
  }

  // ---------------------------------------------------------------- all stages at once

  /** What becomes of a packet before enqueueing: the first reason to drop it, in the order of the stages. */
  datatype Fate = NotCopied | TooLong | NoOffload | OverRate | Ready

  /** `copying`: the packets of the batch that are not in DPDK memory are copied. */
  function FateOf(p: Packet, c: Config, copying: bool): Fate {
    if copying && !p.dpdk && !p.copyOk then NotCopied
    else if p.len > c.maxLen && !p.tso then TooLong
    else if c.tso && !p.hwolOk then NoOffload
    else if !p.qosOk then OverRate
    else Ready
  }

  /** The packets ready to be sent, in order. */
  function ReadyOnes(ps: seq<Packet>, c: Config, copying: bool): seq<Packet> {
    if ps == [] then []
    else
      var r, p := ReadyOnes(ps[..|ps| - 1], c, copying), ps[|ps| - 1];
      if FateOf(p, c, copying) != Ready then r
      else if copying && !p.dpdk then r + [CopyOf(p)] else r + [p]
  }

  function CountFate(ps: seq<Packet>, c: Config, copying: bool, f: Fate): nat {
    if ps == [] then 0
    else CountFate(ps[..|ps| - 1], c, copying, f) + if FateOf(ps[|ps| - 1], c, copying) == f then 1 else 0
  }

  /** The batch after each stage. */
  function Stage1(ps: seq<Packet>, copying: bool): seq<Packet> { if copying then Copied(ps) else ps }

  function Stage2(ps: seq<Packet>, c: Config, copying: bool): seq<Packet> {
    Kept(Mtu(c.maxLen), Stage1(ps, copying))
  }

  function Stage3(ps: seq<Packet>, c: Config, copying: bool): seq<Packet> {
    if c.tso then Kept(Hwol, Stage2(ps, c, copying)) else Stage2(ps, c, copying)
  }

  function Stage4(ps: seq<Packet>, c: Config, copying: bool): seq<Packet> { Kept(Qos, Stage3(ps, c, copying)) }

  /** The stages, each over what the one before left of the batch, come to one decision for each packet: what is left is
      the packets ready to be sent, in order, and each drop is counted under the first reason. */
  lemma StagesAtOnce(ps: seq<Packet>, c: Config)
    requires ps != []
    ensures ToSend(ps, c) == ReadyOnes(ps, c, !ps[0].dpdk)
    ensures DropsBefore(ps, c) ==
            Drops(CountFate(ps, c, !ps[0].dpdk, TooLong), CountFate(ps, c, !ps[0].dpdk, OverRate),
                  CountFate(ps, c, !ps[0].dpdk, NotCopied), CountFate(ps, c, !ps[0].dpdk, NoOffload), 0)
  {
    hide Kept;
    hide Copied;
    hide ReadyOnes;
    hide CountFate;
    StagesReady(ps, c, !ps[0].dpdk);
    StagesCount(ps, c, !ps[0].dpdk, NotCopied);
    StagesCount(ps, c, !ps[0].dpdk, TooLong);
    StagesCount(ps, c, !ps[0].dpdk, NoOffload);
    StagesCount(ps, c, !ps[0].dpdk, OverRate);
  }

  lemma {:induction false} StagesReady(ps: seq<Packet>, c: Config, copying: bool)
    ensures Stage4(ps, c, copying) == ReadyOnes(ps, c, copying)
  {
    if ps == [] {
      NoStages(c, copying);
    } else {
      hide *;
      StagesReady(ps[..|ps| - 1], c, copying);
      FateNext(ps, c, copying);
      StagesNext(ps, c, copying);
    }
  }

  /** How many packets the stages have dropped. */
  function StageDrops(ps: seq<Packet>, c: Config, copying: bool, f: Fate): int {
    match f
    case NotCopied => |ps| - |Stage1(ps, copying)|
    case TooLong => |Stage1(ps, copying)| - |Stage2(ps, c, copying)|
    case NoOffload => |Stage2(ps, c, copying)| - |Stage3(ps, c, copying)|
    case OverRate => |Stage3(ps, c, copying)| - |Stage4(ps, c, copying)|
    case Ready => |Stage4(ps, c, copying)|
  }

  lemma {:induction false} StagesCount(ps: seq<Packet>, c: Config, copying: bool, f: Fate)
    ensures StageDrops(ps, c, copying, f) == CountFate(ps, c, copying, f)
  {
    if ps == [] {
      NoStages(c, copying);
    } else {
      hide *;
      StagesCount(ps[..|ps| - 1], c, copying, f);
      FateNext(ps, c, copying);
      DropsNext(ps, c, copying, f);
    }
  }

  lemma DropsNext(ps: seq<Packet>, c: Config, copying: bool, f: Fate)
    requires ps != []
    ensures StageDrops(ps, c, copying, f) ==
            StageDrops(ps[..|ps| - 1], c, copying, f) + if FateOf(ps[|ps| - 1], c, copying) == f then 1 else 0
  {
    hide Stage1;
    hide Stage2;
    hide Stage3;
    hide Stage4;
    hide FateOf;
    StagesNext(ps, c, copying);
  }

  lemma NoStages(c: Config, copying: bool)
    ensures Stage1([], copying) == Stage2([], c, copying) == Stage3([], c, copying) == Stage4([], c, copying) == []
  {
  }

  lemma FateNext(ps: seq<Packet>, c: Config, copying: bool)
    requires ps != []
    ensures var rest, p := ps[..|ps| - 1], ps[|ps| - 1];
            var q := if copying && !p.dpdk then CopyOf(p) else p;
            && ReadyOnes(ps, c, copying) == (if FateOf(p, c, copying).Ready? then ReadyOnes(rest, c, copying) + [q]
                                             else ReadyOnes(rest, c, copying))
            && forall f :: CountFate(ps, c, copying, f) ==
                           CountFate(rest, c, copying, f) + if FateOf(p, c, copying) == f then 1 else 0
  {
  }

  /** The last packet goes through the stages up to its fate. */
  lemma StagesNext(ps: seq<Packet>, c: Config, copying: bool)
    requires ps != []
    ensures var rest, p := ps[..|ps| - 1], ps[|ps| - 1];
            var f, q := FateOf(p, c, copying), if copying && !p.dpdk then CopyOf(p) else p;
            && Stage1(ps, copying) == (if f.NotCopied? then Stage1(rest, copying) else Stage1(rest, copying) + [q])
            && Stage2(ps, c, copying) == (if f.NotCopied? || f.TooLong? then Stage2(rest, c, copying)
                                          else Stage2(rest, c, copying) + [q])
            && Stage3(ps, c, copying) == (if f.Ready? || f.OverRate? then Stage3(rest, c, copying) + [q]
                                          else Stage3(rest, c, copying))
            && Stage4(ps, c, copying) == (if f.Ready? then Stage4(rest, c, copying) + [q]
                                          else Stage4(rest, c, copying))
  {
    var rest, p := ps[..|ps| - 1], ps[|ps| - 1];
    var q := if copying && !p.dpdk then CopyOf(p) else p;
    assert ps == rest + [p];
    hide Kept;
    KeptSnoc(Mtu(c.maxLen), Stage1(rest, copying), q);
    KeptSnoc(Hwol, Stage2(rest, c, copying), q);
    KeptSnoc(Qos, Stage3(rest, c, copying), q);
  }

  lemma KeptSnoc(s: Stage, ps: seq<Packet>, p: Packet)
    ensures Kept(s, ps + [p]) == if Good(s, p) then Kept(s, ps) + [p] else Kept(s, ps)
  {
    assert (ps + [p])[..|ps|] == ps;
  }
}
