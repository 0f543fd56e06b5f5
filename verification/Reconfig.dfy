/** The reconfiguration protocol of the datapath as a transition system.

    The main thread walks through the six steps of reconfigure_datapath() and edits the poll lists and
    tx port lists that it shares with the PMD threads.  Each PMD thread works on private copies and
    refreshes them only when its `reload` flag is raised.  Every action below is one atomic step of the
    main thread or of one PMD thread (what happens under `port_mutex` or `txq_used_mutex`, or one store
    to an atomic flag), and the actions interleave freely. */
module Reconfig {
  type PmdId = nat
  type PortId = nat

  /** The "PMD" that stands for the non-PMD threads.  It has no thread of its own and polls nothing. */
  const NON_PMD: PmdId := 0

  /** Queue `qid` of a port: the pointer `&port->rxqs[qid]`. */
  datatype Rxq = Rxq(port: PortId, qid: nat)

  /** A port object, from its allocation to its destruction.  `inDp` says that it is in `dp->ports`; `used`
      is `txq_used`, one counter for each tx queue. */
  datatype Port = Port(inDp: bool, needReconf: bool, nRxq: nat, xps: bool, used: seq<int>)

  /** `New`: created, lists not loaded yet.  `Loaded`: lists reloaded, flag not yet lowered.  `Exiting`: asked
      to exit, leaving its main loop.  `Exited`: the thread is gone. */
  datatype Thread = New | Running | Loaded | Exiting | Exited

  /** `shared` and `tx` are the lists edited by the main thread; `polled` and `cache` the private copies, the
      latter with the XPS tx queue id in use on each port (-1 for none). */
  datatype Pmd = Pmd(shared: set<Rxq>, tx: set<PortId>, polled: set<Rxq>, cache: map<PortId, int>,
                     needReload: bool, reload: bool, exit: bool, thread: Thread)

  datatype Stage = Idle | DeletePmds | CreatePmds | MarkPorts | RemoveStale(done: set<PmdId>) | ReconfPorts
                 | Schedule | RemoveMoved(done: set<PmdId>) | AddRxqs | AddTx | Finish

  /** Where the main thread is: in a stage, joining a PMD thread that it deletes, or in
      reload_affected_pmds() on its way to stage `next` (first raising flags, then waiting). */
  datatype Pc = At(stage: Stage) | Deleting(pmd: PmdId) | Signal(next: Stage, sent: set<PmdId>) | Wait(next: Stage)

  datatype State = State(pc: Pc, pmds: map<PmdId, Pmd>, ports: map<PortId, Port>, target: map<Rxq, PmdId>)

  datatype Action =
    // The main thread.
    | AddPort(pt: PortId) | DelPort(pt: PortId) | Begin
    | AskReload(p: PmdId) | BeginDelete(p: PmdId) | FinishDelete | DeletesDone
    | CreatePmd(p: PmdId) | CreatesDone
    | MarkPort(pt: PortId) | MarksDone
    | DropStale(p: PmdId) | StaleDone
    | ReconfPort(pt: PortId, ok: bool, nRxq: nat, nTxq: nat, xps: bool) | PortsDone
    | SetSchedule(target: map<Rxq, PmdId>)
    | DropMoved(p: PmdId) | MovedDone
    | AddRxq(q: Rxq) | RxqsDone
    | AddTxPort(p: PmdId, pt: PortId) | TxDone
    | Destroy
    | Send(p: PmdId) | SendsDone | Acked(p: PmdId) | WaitsDone
    // A PMD thread.
    | Start(p: PmdId) | Load(p: PmdId) | Done(p: PmdId) | Terminate(p: PmdId)
    | UseTx(p: PmdId, pt: PortId, expired: set<PortId>)

  // ---------------------------------------------------------------- guards

  /** The port is gone from the datapath, or must be reconfigured. */
  predicate Stale(ports: map<PortId, Port>, pt: PortId) {
    pt in ports ==> !ports[pt].inDp || ports[pt].needReconf
  }

  ghost predicate ValidTarget(s: State, target: map<Rxq, PmdId>) {
    forall q <- target :: target[q] in s.pmds && target[q] != NON_PMD && !Stale(s.ports, q.port)
      && q.qid < s.ports[q.port].nRxq
  }

  /** Every port goes to the tx ports of the PMDs that poll a queue, and of the non-PMD entry. */
  ghost predicate WantsTx(s: State, p: PmdId, pt: PortId) {
    p in s.pmds && (s.pmds[p].shared != {} || p == NON_PMD) && pt in s.ports && s.ports[pt].inDp
  }

  /** Every queue is in the shared poll list of the PMD it is assigned to. */
  ghost predicate Served(s: State) {
    forall q <- s.target :: s.target[q] in s.pmds && q in s.pmds[s.target[q]].shared
  }

  ghost predicate Can(s: State, a: Action) {
    match a
    case AddPort(pt) => s.pc == At(Idle) && pt !in s.ports
    case DelPort(pt) => s.pc == At(Idle) && pt in s.ports && s.ports[pt].inDp
    case Begin => s.pc == At(Idle)
    case AskReload(p) => s.pc == At(DeletePmds) && p in s.pmds && p != NON_PMD
    case BeginDelete(p) => s.pc == At(DeletePmds) && p in s.pmds && p != NON_PMD
    case FinishDelete => s.pc.Deleting? && s.pc.pmd in s.pmds && s.pmds[s.pc.pmd].thread == Exited
    case DeletesDone => s.pc == At(DeletePmds)
    case CreatePmd(p) => s.pc == At(CreatePmds) && p !in s.pmds && p != NON_PMD
    case CreatesDone => s.pc == At(CreatePmds)
    case MarkPort(pt) => s.pc == At(MarkPorts) && pt in s.ports && s.ports[pt].inDp
    case MarksDone => s.pc == At(MarkPorts)
    case DropStale(p) => s.pc.At? && s.pc.stage.RemoveStale? && p in s.pmds
    case StaleDone => s.pc.At? && s.pc.stage.RemoveStale? && s.pmds.Keys <= s.pc.stage.done
    case ReconfPort(pt, ok, nRxq, nTxq, xps) =>
      s.pc == At(ReconfPorts) && pt in s.ports && s.ports[pt].inDp && s.ports[pt].needReconf
    case PortsDone => s.pc == At(ReconfPorts) && forall pt <- s.ports :: s.ports[pt].inDp ==> !s.ports[pt].needReconf
    case SetSchedule(target) => s.pc == At(Schedule) && ValidTarget(s, target)
    case DropMoved(p) => s.pc.At? && s.pc.stage.RemoveMoved? && p in s.pmds
    case MovedDone => s.pc.At? && s.pc.stage.RemoveMoved? && s.pmds.Keys <= s.pc.stage.done
    case AddRxq(q) => s.pc == At(AddRxqs) && q in s.target && s.target[q] in s.pmds
    case RxqsDone => s.pc == At(AddRxqs) && Served(s)
    case AddTxPort(p, pt) => s.pc == At(AddTx) && WantsTx(s, p, pt)
    case TxDone => s.pc == At(AddTx) && forall p, pt | WantsTx(s, p, pt) :: pt in s.pmds[p].tx
    case Destroy => s.pc == At(Finish)
    case Send(p) => s.pc.Signal? && p in s.pmds && s.pmds[p].needReload && p !in s.pc.sent
    case SendsDone => s.pc.Signal? && forall p <- s.pmds :: s.pmds[p].needReload ==> p in s.pc.sent
    case Acked(p) => s.pc.Wait? && p in s.pmds && s.pmds[p].needReload && !s.pmds[p].reload
    case WaitsDone => s.pc.Wait? && forall p <- s.pmds :: !s.pmds[p].needReload
    case Start(p) => p in s.pmds && s.pmds[p].thread == New
    case Load(p) => p in s.pmds && s.pmds[p].thread == Running && s.pmds[p].reload
    case Done(p) => p in s.pmds && s.pmds[p].thread == Loaded
    case Terminate(p) => p in s.pmds && s.pmds[p].thread == Exiting
    case UseTx(p, pt, expired) =>
      p in s.pmds && s.pmds[p].thread == Running && pt in s.pmds[p].cache && pt in s.ports && s.ports[pt].xps
      && s.ports[pt].used != []
  }

  // ---------------------------------------------------------------- steps

  function SetPmd(s: State, p: PmdId, pm: Pmd): State {
    s.(pmds := s.pmds[p := pm])
  }

  /** The port tx queue of fewest users, the first of them. */
  function LeastUsed(used: seq<int>): (i: nat)
    requires used != []
    ensures i < |used|
    ensures forall k :: 0 <= k < |used| ==> used[i] <= used[k] && (k < i ==> used[i] < used[k])
  {
    if |used| == 1 then 0
    else
      var n := |used| - 1;
      var i := LeastUsed(used[..n]);
      assert forall k :: 0 <= k < n ==> used[..n][k] == used[k];
      if used[n] < used[i] then n else i
  }

  function Bump(used: seq<int>, i: int, n: int): seq<int> {
    if 0 <= i < |used| then used[i := used[i] + n] else used
  }

  /** Drops the users of the tx queues that `cache` holds on the XPS ports in `which`. */
  function Freed(ports: map<PortId, Port>, cache: map<PortId, int>, which: set<PortId>): map<PortId, Port> {
    map pt | pt in ports :: if pt in which && pt in cache && ports[pt].xps
      then ports[pt].(used := Bump(ports[pt].used, cache[pt], -1))
                            else ports[pt]
  }

  /** The cache after dropping them. */
  function Reset(ports: map<PortId, Port>, cache: map<PortId, int>, which: set<PortId>): map<PortId, int> {
    map pt | pt in cache :: if pt in which && pt in ports && ports[pt].xps then -1 else cache[pt]
  }

  function EmptyCache(tx: set<PortId>): map<PortId, int> {
    map pt | pt in tx :: -1
  }

  /** pmd_load_cached_ports(): gives back the tx queue ids and copies the shared tx port list. */
  function LoadPorts(s: State, p: PmdId): State
    requires p in s.pmds
  {
    var pm := s.pmds[p];
    SetPmd(s, p, pm.(cache := EmptyCache(pm.tx))).(ports := Freed(s.ports, pm.cache, pm.cache.Keys))
  }

  /** pmd_load_queues_and_ports(): copies both shared lists. */
  function LoadLists(s: State, p: PmdId, thread: Thread): State
    requires p in s.pmds
  {
    var s1 := LoadPorts(s, p);
    SetPmd(s1, p, s1.pmds[p].(polled := s1.pmds[p].shared, thread := thread))
  }

  /** dpif_netdev_xps_get_tx_qid() for a tx port that holds no id, or whose id has expired: gives the id back,
      takes the least used one, and gives back every other expired id.  The new counters and cache. */
  function Pick(ports: map<PortId, Port>, cache: map<PortId, int>, pt: PortId, expired: set<PortId>)
    : (map<PortId, Port>, map<PortId, int>)
    requires pt in cache && pt in ports && ports[pt].used != []
  {
    var ports1 := Freed(ports, cache, {pt});
    var qid := LeastUsed(ports1[pt].used);
    var ports2 := ports1[pt := ports1[pt].(used := Bump(ports1[pt].used, qid, 1))];
    var cache2 := cache[pt := qid];
    (Freed(ports2, cache2, expired - {pt}), Reset(ports2, cache2, expired - {pt}))
  }

  function PickTx(s: State, p: PmdId, pt: PortId, expired: set<PortId>): State
    requires p in s.pmds && pt in s.pmds[p].cache && pt in s.ports && s.ports[pt].used != []
  {
    var pm := s.pmds[p];
    var (ports, cache) := Pick(s.ports, pm.cache, pt, expired);
    SetPmd(s, p, pm.(cache := cache)).(ports := ports)
  }

  function DropStaleFrom(ports: map<PortId, Port>, pm: Pmd): Pmd {
    var shared := set q | q in pm.shared && !Stale(ports, q.port);
    var tx := set pt | pt in pm.tx && !Stale(ports, pt);
    pm.(shared := shared, tx := tx, needReload := pm.needReload || shared != pm.shared || tx != pm.tx)
  }

  function DropMovedFrom(target: map<Rxq, PmdId>, p: PmdId, pm: Pmd): Pmd {
    var shared := set q | q in pm.shared && q in target && target[q] == p;
    pm.(shared := shared, needReload := pm.needReload || shared != pm.shared)
  }

  /** Where the main thread goes by the actions that do nothing else. */
  function NextPc(pc: Pc, a: Action): Pc {
    match a
    case Begin => At(DeletePmds)
    case DeletesDone => Signal(CreatePmds, {})
    case CreatesDone => At(MarkPorts)
    case MarksDone => At(RemoveStale({}))
    case StaleDone => Signal(ReconfPorts, {})
    case PortsDone => At(Schedule)
    case MovedDone => Signal(AddRxqs, {})
    case RxqsDone => At(AddTx)
    case TxDone => Signal(Finish, {})
    case SendsDone => if pc.Signal? then Wait(pc.next) else pc
    case WaitsDone => if pc.Wait? then At(pc.next) else pc
    case _ => pc
  }

  ghost function Do(s: State, a: Action): State
    requires Can(s, a)
  {
    match a
    case AddPort(pt) => s.(ports := s.ports[pt := Port(true, true, 0, false, [])], pc := At(DeletePmds))
    case DelPort(pt) => s.(ports := s.ports[pt := s.ports[pt].(inDp := false)], pc := At(DeletePmds))
    case AskReload(p) => SetPmd(s, p, s.pmds[p].(needReload := true))
    case BeginDelete(p) => SetPmd(s, p, s.pmds[p].(exit := true, reload := true)).(pc := Deleting(p))
    case FinishDelete => s.(pmds := s.pmds - {s.pc.pmd}, pc := At(DeletePmds))
    case CreatePmd(p) => SetPmd(s, p, Pmd({}, {}, {}, map[], false, false, false, New))
    case MarkPort(pt) => s.(ports := s.ports[pt := s.ports[pt].(needReconf := true)])
    case DropStale(p) =>
      SetPmd(s, p, DropStaleFrom(s.ports, s.pmds[p])).(pc := At(RemoveStale(s.pc.stage.done + {p})))
    case ReconfPort(pt, ok, nRxq, nTxq, xps) =>
      if ok then s.(ports := s.ports[pt := Port(true, false, nRxq, xps, seq(nTxq, _ => 0))])
      else s.(ports := s.ports - {pt})
    case SetSchedule(target) => s.(target := target, pc := At(RemoveMoved({})))
    case DropMoved(p) =>
      SetPmd(s, p, DropMovedFrom(s.target, p, s.pmds[p])).(pc := At(RemoveMoved(s.pc.stage.done + {p})))
    case AddRxq(q) =>
      var pm := s.pmds[s.target[q]];
      SetPmd(s, s.target[q], pm.(shared := pm.shared + {q}, needReload := pm.needReload || q !in pm.shared))
    case AddTxPort(p, pt) =>
      var pm := s.pmds[p];
      SetPmd(s, p, pm.(tx := pm.tx + {pt}, needReload := pm.needReload || pt !in pm.tx))
    case Destroy => s.(ports := (map pt | pt in s.ports && s.ports[pt].inDp :: s.ports[pt]), pc := At(Idle))
    case Send(p) =>
      (if p == NON_PMD then LoadPorts(s, p) else SetPmd(s, p, s.pmds[p].(reload := true)))
      .(pc := s.pc.(sent := s.pc.sent + {p}))
    case Acked(p) => SetPmd(s, p, s.pmds[p].(needReload := false))
    case Start(p) => LoadLists(s, p, Running)
    case Load(p) => LoadLists(s, p, Loaded)
    case Done(p) =>
      var pm := s.pmds[p];
      SetPmd(s, p, pm.(reload := false, thread := if pm.exit then Exiting else Running))
    case Terminate(p) =>
      var pm := s.pmds[p];
      SetPmd(s, p, pm.(polled := {}, cache := map[], thread := Exited)).(
        ports := Freed(s.ports, pm.cache, pm.cache.Keys))
    case UseTx(p, pt, expired) =>
      if s.pmds[p].cache[pt] >= 0 && pt !in expired then s else PickTx(s, p, pt, expired)
    case _ => s.(pc := NextPc(s.pc, a))
  }

  /** The datapath as created: the non-PMD entry, no ports, no PMD threads. */
  ghost predicate Init(s: State) {
    s == State(At(Idle), map[NON_PMD := Pmd({}, {}, {}, map[], false, false, false, Running)], map[], map[])
  }

  /** A run: each state comes from the one before it by some action. */
  ghost predicate IsRun(run: seq<State>, actions: seq<Action>) {
    && |run| == |actions| + 1 && Init(run[0])
    && forall i :: 0 <= i < |actions| ==> Can(run[i], actions[i]) && run[i + 1] == Do(run[i], actions[i])
  }
}
