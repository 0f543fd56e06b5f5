/** What every interleaving of the reconfiguration protocol keeps. */
module ReconfigSafety {
  import opened Reconfig

  // ---------------------------------------------------------------- the invariant

  function Rank(st: Stage): nat {
    match st
    case Idle => 0
    case DeletePmds => 1
    case CreatePmds => 2
    case MarkPorts => 3
    case RemoveStale(_) => 4
    case ReconfPorts => 5
    case Schedule => 6
    case RemoveMoved(_) => 7
    case AddRxqs => 8
    case AddTx => 9
    case Finish => 10
  }

  /** How far the main thread has come; a reload counts as just before the stage it leads to. */
  function Level(pc: Pc): nat {
    match pc
    case At(st) => 2 * Rank(st) + 1
    case Deleting(_) => 3
    case Signal(next, _) => 2 * Rank(next)
    case Wait(next) => 2 * Rank(next)
  }

  /** The private copies of a PMD are up to date. */
  predicate Coherent(pm: Pmd) {
    pm.polled == pm.shared && pm.cache.Keys == pm.tx
  }

  /** How the flags, the thread and the copies of a PMD go together, depending on the main thread. */
  ghost predicate ThreadOk(pc: Pc, p: PmdId, pm: Pmd) {
    && (pm.thread == New || pm.thread == Exited ==> pm.polled == {} && pm.cache == map[])
    && (pm.thread == Loaded ==> Coherent(pm) && pm.reload)
    && (p == NON_PMD ==> pm.shared == {} && pm.polled == {} && pm.thread == Running && !pm.reload && !pm.exit)
    && if pc == Deleting(p) then
         pm.exit && if pm.reload then pm.thread in {New, Running, Loaded} else pm.thread in {Exiting, Exited}
       else
         && !pm.exit && pm.thread in {New, Running, Loaded}
         && match pc
            case At(_) => Settled(pm)
            case Deleting(_) => Settled(pm)
            case Signal(_, sent) => if p in sent then Sent(pm) else Settled(pm)
            case Wait(_) => if pm.needReload then Sent(pm) else Settled(pm)
  }

  /** No reload is under way, and only a PMD marked for one may be out of date. */
  predicate Settled(pm: Pmd) {
    !pm.reload && pm.thread != Loaded && (!pm.needReload ==> Coherent(pm))
  }

  /** The reload flag was raised; once it is down again the copies are up to date. */
  predicate Sent(pm: Pmd) {
    pm.needReload && (!pm.reload ==> pm.thread == Running && Coherent(pm))
  }

  /** Everything the PMD refers to, in the lists it shares and in its own. */
  function SharedPorts(pm: Pmd): set<PortId> { (set q <- pm.shared :: q.port) + pm.tx }

  function OwnPorts(pm: Pmd): set<PortId> { (set q <- pm.polled :: q.port) + pm.cache.Keys }

  ghost predicate RefsOk(ports: map<PortId, Port>, pm: Pmd) {
    && SharedPorts(pm) + OwnPorts(pm) <= ports.Keys
    && forall q <- pm.shared + pm.polled :: q.port in ports && q.qid < ports[q.port].nRxq
  }

  /** What holds from a certain stage on: no stale port in the shared lists, then in the private ones; the
      shared, then the private poll lists comply with the new schedule. */
  ghost predicate StageOk(pc: Pc, ports: map<PortId, Port>, target: map<Rxq, PmdId>, p: PmdId, pm: Pmd) {
    && (10 <= Level(pc) || (pc.At? && pc.stage.RemoveStale? && p in pc.stage.done) ==>
        NoneStale(ports, SharedPorts(pm)))
    && (11 <= Level(pc) ==> NoneStale(ports, OwnPorts(pm)))
    && (16 <= Level(pc) || (pc.At? && pc.stage.RemoveMoved? && p in pc.stage.done) ==> OnTarget(target, p, pm.shared))
    && (17 <= Level(pc) ==> OnTarget(target, p, pm.polled))
    && (pc == At(Finish) ==> Coherent(pm))
  }

  ghost predicate NoneStale(ports: map<PortId, Port>, pts: set<PortId>) {
    forall pt <- pts :: !Stale(ports, pt)
  }

  ghost predicate OnTarget(target: map<Rxq, PmdId>, p: PmdId, qs: set<Rxq>) {
    forall q <- qs :: q in target && target[q] == p
  }

  ghost predicate PmdOk(pc: Pc, ports: map<PortId, Port>, target: map<Rxq, PmdId>, p: PmdId, pm: Pmd) {
    ThreadOk(pc, p, pm) && RefsOk(ports, pm) && StageOk(pc, ports, target, p, pm)
  }

  /** No rx queue is in the shared or private poll lists of two PMDs. */
  ghost predicate Disjoint(pmds: map<PmdId, Pmd>) {
    forall a, b :: a in pmds && b in pmds && a != b ==> Apart(pmds[a], pmds[b])
  }

  predicate Apart(a: Pmd, b: Pmd) {
    (a.shared + a.polled) !! (b.shared + b.polled)
  }

  ghost predicate PortsOk(s: State) {
    && (13 <= Level(s.pc) ==> forall pt <- s.ports :: s.ports[pt].inDp ==> !s.ports[pt].needReconf)
    && (15 <= Level(s.pc) ==> ValidTarget(s, s.target))
    && (19 <= Level(s.pc) ==> Served(s))
  }

  /** The PMDs whose cached entry for port `pt` holds tx queue `qid`. */
  function Users(pmds: map<PmdId, Pmd>, pt: PortId, qid: int): set<PmdId> {
    set p | p in pmds && pt in pmds[p].cache && pmds[p].cache[pt] == qid
  }

  /** `txq_used` counts the cached entries that hold each tx queue id. */
  ghost predicate CountsOk(s: State) {
    && (forall pt, k :: pt in s.ports && 0 <= k < |s.ports[pt].used| ==> s.ports[pt].used[k] == |Users(s.pmds, pt, k)|)
    && (forall p, pt :: p in s.pmds && pt in s.pmds[p].cache && pt in s.ports ==>
          QidOk(s.ports[pt], s.pmds[p].cache[pt]))
  }

  /** Only ports in XPS mode give out tx queue ids. */
  predicate QidOk(port: Port, qid: int) {
    -1 <= qid < |port.used| && (qid >= 0 ==> port.xps)
  }

  ghost predicate Inv(s: State) {
    && NON_PMD in s.pmds
    && (forall p <- s.pmds :: PmdOk(s.pc, s.ports, s.target, p, s.pmds[p]))
    && Disjoint(s.pmds) && PortsOk(s) && CountsOk(s)
    && (s.pc.Deleting? ==> s.pc.pmd in s.pmds)
    && (s.pc.Signal? || s.pc.Wait? ==> s.pc.next in {CreatePmds, ReconfPorts, AddRxqs, Finish})
  }

  // ---------------------------------------------------------------- changes to one PMD

  /** `s'` differs from `s` in PMD `p` and perhaps in where the main thread is. */
  ghost predicate OnePmd(s: State, s': State, p: PmdId) {
    && p in s.pmds && p in s'.pmds && s'.pmds == s.pmds[p := s'.pmds[p]]
    && s'.ports == s.ports && s'.target == s.target && s'.pmds[p].cache == s.pmds[p].cache
  }

  /** The other PMDs do not care where exactly the main thread is, as long as it has neither passed a
      stage nor turned to them. */
  predicate SameView(pc: Pc, pc': Pc, o: PmdId) {
    || pc == pc'
    || (pc.At? && pc'.At? && Rank(pc.stage) == Rank(pc'.stage)
        && (pc.stage.RemoveStale? ==> o in pc'.stage.done ==> o in pc.stage.done)
        && (pc.stage.RemoveMoved? ==> o in pc'.stage.done ==> o in pc.stage.done))
    || (pc == At(DeletePmds) && pc'.Deleting? && pc'.pmd != o)
    || (pc.Signal? && pc'.Signal? && pc.next == pc'.next && (o in pc.sent <==> o in pc'.sent))
  }

  lemma SameViewKept(pc: Pc, pc': Pc, ports: map<PortId, Port>, target: map<Rxq, PmdId>, o: PmdId, pm: Pmd)
    requires PmdOk(pc, ports, target, o, pm) && SameView(pc, pc', o)
    ensures PmdOk(pc', ports, target, o, pm)
    ensures Level(pc') == Level(pc)
  {
    hide RefsOk;
    hide NoneStale;
    hide OnTarget;
    hide Coherent;
  }

  lemma ApartShrunk(a: Pmd, b: Pmd, b': Pmd)
    requires Apart(a, b) && b'.shared + b'.polled <= b.shared + b.polled
    ensures Apart(a, b') && Apart(b', a)
  {
  }

  lemma OneStepApart(s: State, s': State, p: PmdId)
    requires Inv(s) && OnePmd(s, s', p)
    requires forall o :: o != p ==> SameView(s.pc, s'.pc, o)
    requires s'.pc.Deleting? ==> s'.pc.pmd in s.pmds
    requires forall o <- s.pmds :: o != p ==> Apart(s.pmds[o], s'.pmds[p])
    requires 19 <= Level(s.pc) ==> s.pmds[p].shared <= s'.pmds[p].shared
    requires PmdOk(s'.pc, s.ports, s.target, p, s'.pmds[p])
    ensures Inv(s')
  {
    hide PmdOk;
    hide CountsOk;
    hide SameView;
    hide ValidTarget;
    forall o <- s.pmds | o != p
      ensures PmdOk(s'.pc, s'.ports, s'.target, o, s'.pmds[o])
    {
      SameViewKept(s.pc, s'.pc, s.ports, s.target, o, s.pmds[o]);
    }
    SameUsers(s, s', p);
    SameLevel(s.pc, s'.pc, p);
    TargetKept(s, s');
    if 19 <= Level(s.pc) {
      ServedKept(s, s', p);
    }
    hide Served;
    NextKept(s.pc, s'.pc, p);
  }

  lemma OneStep(s: State, s': State, p: PmdId)
    requires Inv(s) && OnePmd(s, s', p)
    requires forall o :: o != p ==> SameView(s.pc, s'.pc, o)
    requires s'.pc.Deleting? ==> s'.pc.pmd in s.pmds
    requires s'.pmds[p].shared + s'.pmds[p].polled <= s.pmds[p].shared + s.pmds[p].polled
    requires 19 <= Level(s.pc) ==> s.pmds[p].shared <= s'.pmds[p].shared
    requires PmdOk(s'.pc, s.ports, s.target, p, s'.pmds[p])
    ensures Inv(s')
  {
    hide PmdOk;
    hide SameView;
    forall o <- s.pmds | o != p
      ensures Apart(s.pmds[o], s'.pmds[p])
    {
      assert Apart(s.pmds[o], s.pmds[p]);
      ApartShrunk(s.pmds[o], s.pmds[p], s'.pmds[p]);
    }
    OneStepApart(s, s', p);
  }

  lemma NextKept(pc: Pc, pc': Pc, p: PmdId)
    requires forall o :: o != p ==> SameView(pc, pc', o)
    ensures (pc.Signal? <==> pc'.Signal?) && (pc.Wait? <==> pc'.Wait?)
    ensures pc.Signal? || pc.Wait? ==> pc'.next == pc.next
  {
    assert SameView(pc, pc', p + 1);
  }

  lemma SameLevel(pc: Pc, pc': Pc, p: PmdId)
    requires forall o :: o != p ==> SameView(pc, pc', o)
    ensures Level(pc') == Level(pc)
  {
    assert SameView(pc, pc', p + 1);
  }

  lemma TargetKept(s: State, s': State)
    requires s'.ports == s.ports && s'.target == s.target && s.pmds.Keys <= s'.pmds.Keys
    ensures ValidTarget(s, s.target) ==> ValidTarget(s', s.target)
  {
  }

  lemma ServedKept(s: State, s': State, p: PmdId)
    requires p in s.pmds && p in s'.pmds && s'.pmds == s.pmds[p := s'.pmds[p]] && s'.target == s.target
    requires s.pmds[p].shared <= s'.pmds[p].shared
    ensures Served(s) ==> Served(s')
  {
  }

  lemma SameUsers(s: State, s': State, p: PmdId)
    requires OnePmd(s, s', p)
    ensures CountsOk(s) ==> CountsOk(s')
  {
    forall pt, k
      ensures Users(s.pmds, pt, k) == Users(s'.pmds, pt, k)
    {
    }
  }

  lemma OfInv(s: State, p: PmdId)
    requires Inv(s) && p in s.pmds
    ensures PmdOk(s.pc, s.ports, s.target, p, s.pmds[p])
  {
  }

  lemma AskReloadKept(s: State, p: PmdId)
    requires Inv(s) && Can(s, AskReload(p))
    ensures Inv(Do(s, AskReload(p)))
  {
    hide Inv;
    OfInv(s, p);
    OneStep(s, Do(s, AskReload(p)), p);
  }

  lemma BeginDeleteKept(s: State, p: PmdId)
    requires Inv(s) && Can(s, BeginDelete(p))
    ensures Inv(Do(s, BeginDelete(p)))
  {
    hide Inv;
    OfInv(s, p);
    OneStep(s, Do(s, BeginDelete(p)), p);
  }

  lemma DropStaleOk(done: set<PmdId>, ports: map<PortId, Port>, target: map<Rxq, PmdId>, p: PmdId, pm: Pmd)
    requires PmdOk(At(RemoveStale(done)), ports, target, p, pm)
    ensures PmdOk(At(RemoveStale(done + {p})), ports, target, p, DropStaleFrom(ports, pm))
    ensures DropStaleFrom(ports, pm).shared <= pm.shared && DropStaleFrom(ports, pm).polled == pm.polled
  {
    assert OwnPorts(DropStaleFrom(ports, pm)) == OwnPorts(pm);
    hide Stale;
  }

  lemma DropStaleKept(s: State, p: PmdId)
    requires Inv(s) && Can(s, DropStale(p))
    ensures Inv(Do(s, DropStale(p)))
  {
    hide Inv;
    hide PmdOk;
    OfInv(s, p);
    DropStaleOk(s.pc.stage.done, s.ports, s.target, p, s.pmds[p]);
    OneStep(s, Do(s, DropStale(p)), p);
  }

  /** Exactly the queues and tx ports of ports that stay and need no reconfiguration are left in the shared lists; a
      reload is asked for if anything went. */
  lemma DropStaleExact(s: State, p: PmdId)
    requires Inv(s) && Can(s, DropStale(p))
    ensures var pm, s' := s.pmds[p], Do(s, DropStale(p));
            && s' == s.(pmds := s'.pmds, pc := s'.pc) && p in s'.pmds
            && s'.pmds == s.pmds[p := pm.(shared := s'.pmds[p].shared, tx := s'.pmds[p].tx,
                                          needReload := s'.pmds[p].needReload)]
            && (forall q :: q in s'.pmds[p].shared <==> q in pm.shared && Stays(s.ports, q.port))
            && (forall pt :: pt in s'.pmds[p].tx <==> pt in pm.tx && Stays(s.ports, pt))
            && (s'.pmds[p].needReload <==> pm.needReload || (exists q <- pm.shared :: !Stays(s.ports, q.port)) ||
                                           exists pt <- pm.tx :: !Stays(s.ports, pt))
  {
    hide Inv;
    ShrunkSame(s.pmds[p].shared, DropStaleFrom(s.ports, s.pmds[p]).shared);
    ShrunkSame(s.pmds[p].tx, DropStaleFrom(s.ports, s.pmds[p]).tx);
  }

  predicate Stays(ports: map<PortId, Port>, pt: PortId) {
    pt in ports && ports[pt].inDp && !ports[pt].needReconf
  }

  lemma ShrunkSame<T>(a: set<T>, b: set<T>)
    requires b <= a
    ensures a != b <==> exists x <- a :: x !in b
  {
  }

  lemma DropMovedOk(done: set<PmdId>, ports: map<PortId, Port>, target: map<Rxq, PmdId>, p: PmdId, pm: Pmd)
    requires PmdOk(At(RemoveMoved(done)), ports, target, p, pm)
    ensures PmdOk(At(RemoveMoved(done + {p})), ports, target, p, DropMovedFrom(target, p, pm))
    ensures DropMovedFrom(target, p, pm).shared <= pm.shared && DropMovedFrom(target, p, pm).polled == pm.polled
  {
    assert OwnPorts(DropMovedFrom(target, p, pm)) == OwnPorts(pm);
    assert SharedPorts(DropMovedFrom(target, p, pm)) <= SharedPorts(pm);
    hide Stale;
  }

  lemma DropMovedKept(s: State, p: PmdId)
    requires Inv(s) && Can(s, DropMoved(p))
    ensures Inv(Do(s, DropMoved(p)))
  {
    hide Inv;
    hide PmdOk;
    OfInv(s, p);
    DropMovedOk(s.pc.stage.done, s.ports, s.target, p, s.pmds[p]);
    OneStep(s, Do(s, DropMoved(p)), p);
  }

  /** Exactly the queues that the schedule gives to the PMD are left in its shared poll list. */
  lemma DropMovedExact(s: State, p: PmdId)
    requires Inv(s) && Can(s, DropMoved(p))
    ensures var pm, s' := s.pmds[p], Do(s, DropMoved(p));
            && s' == s.(pmds := s'.pmds, pc := s'.pc) && p in s'.pmds
            && s'.pmds == s.pmds[p := pm.(shared := s'.pmds[p].shared, needReload := s'.pmds[p].needReload)]
            && (forall q :: q in s'.pmds[p].shared <==> q in pm.shared && q in s.target && s.target[q] == p)
            && (s'.pmds[p].needReload <==> pm.needReload || exists q <- pm.shared :: q !in s'.pmds[p].shared)
  {
    hide Inv;
    ShrunkSame(s.pmds[p].shared, DropMovedFrom(s.target, p, s.pmds[p]).shared);
  }

  lemma SendKept(s: State, p: PmdId)
    requires Inv(s) && Can(s, Send(p)) && p != NON_PMD
    ensures Inv(Do(s, Send(p)))
  {
    hide Inv;
    OfInv(s, p);
    OneStep(s, Do(s, Send(p)), p);
  }

  lemma AckedKept(s: State, p: PmdId)
    requires Inv(s) && Can(s, Acked(p))
    ensures Inv(Do(s, Acked(p)))
  {
    hide Inv;
    OfInv(s, p);
    OneStep(s, Do(s, Acked(p)), p);
  }

  lemma DoneKept(s: State, p: PmdId)
    requires Inv(s) && Can(s, Done(p))
    ensures Inv(Do(s, Done(p)))
  {
    hide Inv;
    OfInv(s, p);
    OneStep(s, Do(s, Done(p)), p);
  }

  // ---------------------------------------------------------------- steps that only move the main thread

  predicate IsMove(a: Action) {
    a in {Begin, DeletesDone, CreatesDone, MarksDone, StaleDone, PortsDone, MovedDone, RxqsDone, TxDone, SendsDone,
          WaitsDone}
  }

  lemma CoherentPorts(pm: Pmd)
    ensures Coherent(pm) ==> OwnPorts(pm) == SharedPorts(pm)
    ensures pm.polled == {} && pm.cache == map[] ==> OwnPorts(pm) == {}
  {
  }

  lemma PlainMoveOk(pc: Pc, pc': Pc, ports: map<PortId, Port>, target: map<Rxq, PmdId>, p: PmdId, pm: Pmd)
    requires PmdOk(pc, ports, target, p, pm)
    requires (pc, pc') in {
      (At(Idle), At(DeletePmds)), (At(DeletePmds), Signal(CreatePmds, {})), (At(CreatePmds), At(MarkPorts)),
      (At(MarkPorts), At(RemoveStale({}))), (At(ReconfPorts), At(Schedule)), (At(AddRxqs), At(AddTx)),
      (At(AddTx), Signal(Finish, {}))}
    ensures PmdOk(pc', ports, target, p, pm)
  {
    hide RefsOk;
    hide NoneStale;
    hide OnTarget;
    hide Coherent;
  }

  lemma DroppedOk(pc: Pc, pc': Pc, ports: map<PortId, Port>, target: map<Rxq, PmdId>, p: PmdId, pm: Pmd)
    requires PmdOk(pc, ports, target, p, pm) && pc.At?
    requires (pc.stage.RemoveStale? && p in pc.stage.done && pc' == Signal(ReconfPorts, {}))
             || (pc.stage.RemoveMoved? && p in pc.stage.done && pc' == Signal(AddRxqs, {}))
    ensures PmdOk(pc', ports, target, p, pm)
  {
    hide RefsOk;
    hide NoneStale;
    hide OnTarget;
    hide Coherent;
  }

  lemma SentOk(next: Stage, sent: set<PmdId>, ports: map<PortId, Port>, target: map<Rxq, PmdId>, p: PmdId, pm: Pmd)
    requires PmdOk(Signal(next, sent), ports, target, p, pm) && (pm.needReload ==> p in sent)
    ensures PmdOk(Wait(next), ports, target, p, pm)
  {
    hide RefsOk;
    hide NoneStale;
    hide OnTarget;
    hide Coherent;
  }

  /** Once a PMD needs no reload any more, what held of its shared lists holds of its private ones. */
  lemma WaitedOk(next: Stage, ports: map<PortId, Port>, target: map<Rxq, PmdId>, p: PmdId, pm: Pmd)
    requires PmdOk(Wait(next), ports, target, p, pm) && !pm.needReload
    requires next in {CreatePmds, ReconfPorts, AddRxqs, Finish}
    ensures PmdOk(At(next), ports, target, p, pm)
  {
    assert Coherent(pm);
    CoherentPorts(pm);
    hide RefsOk;
    hide NoneStale;
    hide OnTarget;
    hide SharedPorts;
    hide OwnPorts;
  }

  lemma MoveOk(s: State, a: Action, p: PmdId)
    requires Inv(s) && IsMove(a) && Can(s, a) && p in s.pmds
    ensures PmdOk(NextPc(s.pc, a), s.ports, s.target, p, s.pmds[p])
  {
    hide PmdOk;
    hide WantsTx;
    hide Served;
    hide Disjoint;
    hide CountsOk;
    hide PortsOk;
    OfInv(s, p);
    if s.pc.Signal? {
      SentOk(s.pc.next, s.pc.sent, s.ports, s.target, p, s.pmds[p]);
    } else if s.pc.Wait? {
      WaitedOk(s.pc.next, s.ports, s.target, p, s.pmds[p]);
    } else if a == StaleDone || a == MovedDone {
      DroppedOk(s.pc, NextPc(s.pc, a), s.ports, s.target, p, s.pmds[p]);
    } else {
      PlainMoveOk(s.pc, NextPc(s.pc, a), s.ports, s.target, p, s.pmds[p]);
    }
  }

  lemma MovePorts(s: State, a: Action)
    requires PortsOk(s) && IsMove(a) && Can(s, a)
    requires s.pc.Signal? || s.pc.Wait? ==> s.pc.next in {CreatePmds, ReconfPorts, AddRxqs, Finish}
    ensures PortsOk(s.(pc := NextPc(s.pc, a)))
  {
    hide ValidTarget;
    hide WantsTx;
    hide Served;
    TargetKept(s, s.(pc := NextPc(s.pc, a)));
    ServedSame(s, s.(pc := NextPc(s.pc, a)));
  }

  lemma ServedSame(s: State, s': State)
    requires s'.pmds == s.pmds && s'.target == s.target
    ensures Served(s) ==> Served(s')
  {
  }

  lemma MoveDone(s: State, a: Action)
    requires IsMove(a) && Can(s, a)
    ensures Do(s, a) == s.(pc := NextPc(s.pc, a))
  {
    hide NextPc;
    hide Can;
  }

  lemma MoveKept(s: State, a: Action)
    requires Inv(s) && IsMove(a) && Can(s, a)
    ensures Inv(Do(s, a))
  {
    hide PmdOk;
    hide CountsOk;
    hide Disjoint;
    hide PortsOk;
    hide Do;
    hide WantsTx;
    hide Served;
    MoveDone(s, a);
    forall p <- s.pmds
      ensures PmdOk(NextPc(s.pc, a), s.ports, s.target, p, s.pmds[p])
    {
      MoveOk(s, a, p);
    }
    MovePorts(s, a);
    SameCounts(s, Do(s, a));
  }

  lemma SameCounts(s: State, s': State)
    requires s.pmds == s'.pmds && s.ports == s'.ports && CountsOk(s)
    ensures CountsOk(s')
  {
  }

  lemma ScheduledOk(ports: map<PortId, Port>, target: map<Rxq, PmdId>, target': map<Rxq, PmdId>, p: PmdId, pm: Pmd)
    requires PmdOk(At(Schedule), ports, target, p, pm)
    ensures PmdOk(At(RemoveMoved({})), ports, target', p, pm)
  {
    hide RefsOk;
    hide NoneStale;
    hide OnTarget;
    hide Coherent;
  }

  lemma SetScheduleKept(s: State, target: map<Rxq, PmdId>)
    requires Inv(s) && Can(s, SetSchedule(target))
    ensures Inv(Do(s, SetSchedule(target)))
  {
    hide CountsOk;
    hide Disjoint;
    hide PmdOk;
    var s' := Do(s, SetSchedule(target));
    forall p <- s.pmds
      ensures PmdOk(s'.pc, s'.ports, s'.target, p, s'.pmds[p])
    {
      ScheduledOk(s.ports, s.target, target, p, s.pmds[p]);
    }
    SameCounts(s, s');
    hide Served;
  }

  // ---------------------------------------------------------------- adding queues and tx ports

  lemma AddRxqOk(pc: Pc, ports: map<PortId, Port>, target: map<Rxq, PmdId>, p: PmdId, pm: Pmd, q: Rxq)
    requires pc == At(AddRxqs) && PmdOk(pc, ports, target, p, pm) && q in target && target[q] == p != NON_PMD
    requires q.port in ports && q.qid < ports[q.port].nRxq && !Stale(ports, q.port)
    ensures PmdOk(pc, ports, target, p, pm.(shared := pm.shared + {q}, needReload := pm.needReload || q !in pm.shared))
  {
    hide Stale;
    var pm' := pm.(shared := pm.shared + {q}, needReload := pm.needReload || q !in pm.shared);
    assert SharedPorts(pm') == SharedPorts(pm) + {q.port};
    assert OwnPorts(pm') == OwnPorts(pm);
    assert q in pm.shared ==> pm'.shared == pm.shared;
  }

  /** The new schedule gives `q` to one PMD only, and every list already complies with it. */
  lemma AddRxqApart(target: map<Rxq, PmdId>, o: PmdId, a: Pmd, p: PmdId, b: Pmd, b': Pmd, q: Rxq)
    requires o != p && Apart(a, b) && OnTarget(target, o, a.shared) && OnTarget(target, o, a.polled)
    requires q in target && target[q] == p && b'.shared == b.shared + {q} && b'.polled == b.polled
    ensures Apart(a, b')
  {
  }

  lemma InvTarget(s: State, q: Rxq)
    requires Inv(s) && s.pc == At(AddRxqs) && q in s.target
    ensures s.target[q] in s.pmds && s.target[q] != NON_PMD
    ensures !Stale(s.ports, q.port) && q.port in s.ports && q.qid < s.ports[q.port].nRxq
    ensures forall o <- s.pmds :: OnTarget(s.target, o, s.pmds[o].shared) && OnTarget(s.target, o, s.pmds[o].polled)
    ensures forall o <- s.pmds :: o != s.target[q] ==> Apart(s.pmds[o], s.pmds[s.target[q]])
  {
    hide RefsOk;
    hide ThreadOk;
    hide NoneStale;
    hide OnTarget;
    hide CountsOk;
    hide Apart;
  }

  lemma AddRxqKept(s: State, q: Rxq)
    requires Inv(s) && Can(s, AddRxq(q))
    ensures Inv(Do(s, AddRxq(q)))
  {
    hide Inv;
    hide PmdOk;
    hide Stale;
    hide Apart;
    hide OnTarget;
    var p, s' := s.target[q], Do(s, AddRxq(q));
    InvTarget(s, q);
    OfInv(s, p);
    AddRxqOk(s.pc, s.ports, s.target, p, s.pmds[p], q);
    forall o <- s.pmds | o != p
      ensures Apart(s.pmds[o], s'.pmds[p])
    {
      AddRxqApart(s.target, o, s.pmds[o], p, s.pmds[p], s'.pmds[p], q);
    }
    OneStepApart(s, s', p);
  }

  lemma AddTxOk(pc: Pc, ports: map<PortId, Port>, target: map<Rxq, PmdId>, p: PmdId, pm: Pmd, pt: PortId)
    requires pc == At(AddTx) && PmdOk(pc, ports, target, p, pm) && pt in ports && !Stale(ports, pt)
    ensures PmdOk(pc, ports, target, p, pm.(tx := pm.tx + {pt}, needReload := pm.needReload || pt !in pm.tx))
  {
    hide Stale;
    var pm' := pm.(tx := pm.tx + {pt}, needReload := pm.needReload || pt !in pm.tx);
    assert SharedPorts(pm') == SharedPorts(pm) + {pt};
    assert OwnPorts(pm') == OwnPorts(pm);
    assert pt in pm.tx ==> pm'.tx == pm.tx;
  }

  lemma AddTxKept(s: State, p: PmdId, pt: PortId)
    requires Inv(s) && Can(s, AddTxPort(p, pt))
    ensures Inv(Do(s, AddTxPort(p, pt)))
  {
    hide PmdOk;
    hide CountsOk;
    AddTxOk(s.pc, s.ports, s.target, p, s.pmds[p], pt);
    hide Inv;
    OneStep(s, Do(s, AddTxPort(p, pt)), p);
  }

  // ---------------------------------------------------------------- creating and deleting PMD threads

  lemma NewOk(ports: map<PortId, Port>, target: map<Rxq, PmdId>, p: PmdId, pm: Pmd)
    requires pm == Pmd({}, {}, {}, map[], false, false, false, New) && p != NON_PMD
    ensures PmdOk(At(CreatePmds), ports, target, p, pm)
  {
  }

  lemma CreatedFits(s: State, s': State, p: PmdId, pm: Pmd)
    requires p !in s.pmds && s'.pmds == s.pmds[p := pm] && s'.ports == s.ports
    requires pm.shared == {} && pm.polled == {} && pm.cache == map[]
    requires Disjoint(s.pmds) && CountsOk(s)
    ensures Disjoint(s'.pmds) && CountsOk(s')
  {
    forall pt, k
      ensures Users(s.pmds, pt, k) == Users(s'.pmds, pt, k)
    {
    }
  }

  lemma CreateKept(s: State, p: PmdId)
    requires Inv(s) && Can(s, CreatePmd(p))
    ensures Inv(Do(s, CreatePmd(p)))
  {
    hide PmdOk;
    hide ValidTarget;
    hide CountsOk;
    hide Disjoint;
    var s', pm := Do(s, CreatePmd(p)), Pmd({}, {}, {}, map[], false, false, false, New);
    NewOk(s.ports, s.target, p, pm);
    CreatedFits(s, s', p, pm);
    TargetKept(s, s');
  }

  lemma DeleteOk(pc: Pc, ports: map<PortId, Port>, target: map<Rxq, PmdId>, o: PmdId, pm: Pmd)
    requires pc.Deleting? && pc.pmd != o && PmdOk(pc, ports, target, o, pm)
    ensures PmdOk(At(DeletePmds), ports, target, o, pm)
  {
  }

  lemma DeletedLeaves(s: State, s': State, p: PmdId)
    requires p in s.pmds && s'.pmds == s.pmds - {p} && s'.ports == s.ports && s.pmds[p].cache == map[]
    requires Disjoint(s.pmds) && CountsOk(s)
    ensures Disjoint(s'.pmds) && CountsOk(s')
  {
    forall pt, k
      ensures Users(s.pmds, pt, k) == Users(s'.pmds, pt, k)
    {
    }
    forall a, b | a in s'.pmds && b in s'.pmds && a != b
      ensures Apart(s'.pmds[a], s'.pmds[b])
    {
      assert Apart(s.pmds[a], s.pmds[b]);
    }
  }

  lemma DeletedHoldsNothing(s: State)
    requires Inv(s) && Can(s, FinishDelete)
    ensures s.pmds[s.pc.pmd].cache == map[] && s.pc.pmd != NON_PMD
  {
    hide Inv;
    OfInv(s, s.pc.pmd);
  }

  lemma FinishDeleteKept(s: State)
    requires Inv(s) && Can(s, FinishDelete)
    ensures Inv(Do(s, FinishDelete))
  {
    hide PmdOk;
    hide CountsOk;
    hide Disjoint;
    hide ValidTarget;
    hide Served;
    hide DropStaleFrom;
    hide Users;
    var s' := Do(s, FinishDelete);
    DeletedHoldsNothing(s);
    forall o <- s'.pmds
      ensures PmdOk(s'.pc, s'.ports, s'.target, o, s'.pmds[o])
    {
      DeleteOk(s.pc, s.ports, s.target, o, s.pmds[o]);
    }
    DeletedLeaves(s, s', s.pc.pmd);
  }

  // ---------------------------------------------------------------- tx queue counters

  /** Only the counters differ. */
  ghost predicate SamePorts(a: map<PortId, Port>, b: map<PortId, Port>) {
    && a.Keys == b.Keys
    && forall pt <- a :: b[pt] == a[pt].(used := b[pt].used) && |b[pt].used| == |a[pt].used|
  }

  lemma SamePortsOk(pc: Pc, a: map<PortId, Port>, b: map<PortId, Port>, target: map<Rxq, PmdId>, p: PmdId, pm: Pmd)
    requires SamePorts(a, b) && PmdOk(pc, a, target, p, pm)
    ensures PmdOk(pc, b, target, p, pm)
  {
    assert forall pt :: Stale(a, pt) <==> Stale(b, pt);
    hide Stale;
  }

  /** The tx queue id that a cache holds on a port, -1 if none. */
  function QidOn(cache: map<PortId, int>, pt: PortId): int {
    if pt in cache then cache[pt] else -1
  }

  /** The counters follow a PMD whose cache changes from `cache` to `cache'`. */
  ghost predicate Follows(ports: map<PortId, Port>, ports': map<PortId, Port>, cache: map<PortId, int>,
                          cache': map<PortId, int>) {
    && ports'.Keys == ports.Keys
    && forall pt <- ports :: FollowsAt(ports[pt], ports'[pt], QidOn(cache, pt), QidOn(cache', pt))
  }

  ghost predicate FollowsAt(port: Port, port': Port, qid: int, qid': int) {
    && port' == port.(used := port'.used) && |port'.used| == |port.used|
    && QidOk(port, qid')
    && forall k :: 0 <= k < |port.used| ==>
         port'.used[k] == port.used[k] - (if qid == k then 1 else 0) + (if qid' == k then 1 else 0)
  }

  lemma FollowsSamePorts(ports: map<PortId, Port>, ports': map<PortId, Port>, cache: map<PortId, int>,
                         cache': map<PortId, int>)
    requires Follows(ports, ports', cache, cache')
    ensures SamePorts(ports, ports')
  {
    forall pt <- ports
      ensures ports'[pt] == ports[pt].(used := ports'[pt].used) && |ports'[pt].used| == |ports[pt].used|
    {
      assert FollowsAt(ports[pt], ports'[pt], QidOn(cache, pt), QidOn(cache', pt));
    }
  }

  function OtherUsers(pmds: map<PmdId, Pmd>, p: PmdId, pt: PortId, qid: int): set<PmdId> {
    set o | o in pmds && o != p && pt in pmds[o].cache && pmds[o].cache[pt] == qid
  }

  lemma UsersSplit(pmds: map<PmdId, Pmd>, p: PmdId, pt: PortId, k: nat)
    requires p in pmds
    ensures |Users(pmds, pt, k)| == |OtherUsers(pmds, p, pt, k)| + if QidOn(pmds[p].cache, pt) == k then 1 else 0
  {
    var others := OtherUsers(pmds, p, pt, k);
    if QidOn(pmds[p].cache, pt) == k {
      assert Users(pmds, pt, k) == others + {p};
    } else {
      assert Users(pmds, pt, k) == others;
    }
  }

  lemma UsersMoved(pmds: map<PmdId, Pmd>, p: PmdId, pm: Pmd, pt: PortId, k: nat)
    requires p in pmds
    ensures |Users(pmds[p := pm], pt, k)| ==
            |Users(pmds, pt, k)| - (if QidOn(pmds[p].cache, pt) == k then 1 else 0)
              + (if QidOn(pm.cache, pt) == k then 1 else 0)
  {
    assert OtherUsers(pmds[p := pm], p, pt, k) == OtherUsers(pmds, p, pt, k);
    hide Users;
    hide OtherUsers;
    UsersSplit(pmds, p, pt, k);
    UsersSplit(pmds[p := pm], p, pt, k);
  }

  lemma CountsFollow(s: State, s': State, p: PmdId)
    requires CountsOk(s) && p in s.pmds && p in s'.pmds && s'.pmds == s.pmds[p := s'.pmds[p]]
    requires Follows(s.ports, s'.ports, s.pmds[p].cache, s'.pmds[p].cache)
    ensures CountsOk(s')
  {
    var cache, cache' := s.pmds[p].cache, s'.pmds[p].cache;
    hide Users;
    forall pt | pt in s'.ports
      ensures FollowsAt(s.ports[pt], s'.ports[pt], QidOn(cache, pt), QidOn(cache', pt))
    {
    }
    forall pt, k | pt in s'.ports && 0 <= k < |s'.ports[pt].used|
      ensures s'.ports[pt].used[k] == |Users(s'.pmds, pt, k)|
    {
      UsersMoved(s.pmds, p, s'.pmds[p], pt, k);
    }
  }

  /** A PMD thread changes its own copies, its flag and the counters; the main thread stands still. */
  lemma ThreadStep(s: State, s': State, p: PmdId)
    requires Inv(s) && p in s.pmds && p in s'.pmds && s'.pmds == s.pmds[p := s'.pmds[p]]
    requires s'.target == s.target && forall o :: o != p ==> SameView(s.pc, s'.pc, o)
    requires s'.pc.Deleting? ==> s'.pc == s.pc
    requires Follows(s.ports, s'.ports, s.pmds[p].cache, s'.pmds[p].cache)
    requires s'.pmds[p].shared + s'.pmds[p].polled <= s.pmds[p].shared + s.pmds[p].polled
    requires 19 <= Level(s.pc) ==> s.pmds[p].shared <= s'.pmds[p].shared
    requires PmdOk(s'.pc, s.ports, s.target, p, s'.pmds[p])
    ensures Inv(s')
  {
    hide PmdOk;
    hide Apart;
    hide CountsOk;
    hide SameView;
    hide ValidTarget;
    hide QidOk;
    hide FollowsAt;
    hide SamePorts;
    FollowsSamePorts(s.ports, s'.ports, s.pmds[p].cache, s'.pmds[p].cache);
    forall o <- s.pmds
      ensures PmdOk(s'.pc, s'.ports, s'.target, o, s'.pmds[o])
      ensures o != p ==> Apart(s'.pmds[o], s'.pmds[p]) && Apart(s'.pmds[p], s'.pmds[o])
    {
      if o != p {
        SameViewKept(s.pc, s'.pc, s.ports, s.target, o, s.pmds[o]);
        ApartShrunk(s.pmds[o], s.pmds[p], s'.pmds[p]);
      }
      SamePortsOk(s'.pc, s.ports, s'.ports, s.target, o, s'.pmds[o]);
    }
    CountsFollow(s, s', p);
    hide Follows;
    SameLevel(s.pc, s'.pc, p);
    NextKept(s.pc, s'.pc, p);
    SamePortsTarget(s, s');
    if 19 <= Level(s.pc) {
      ServedKept(s, s', p);
    }
    hide Served;
  }

  lemma SamePortsTarget(s: State, s': State)
    requires SamePorts(s.ports, s'.ports) && s'.target == s.target && s.pmds.Keys <= s'.pmds.Keys
    ensures ValidTarget(s, s.target) ==> ValidTarget(s', s.target)
  {
  }

  lemma FreedFollows(ports: map<PortId, Port>, cache: map<PortId, int>, which: set<PortId>, cache': map<PortId, int>)
    requires forall pt :: pt in cache && pt in ports ==> QidOk(ports[pt], cache[pt])
    requires forall pt <- ports :: QidOn(cache', pt) == if pt in which && ports[pt].xps then -1 else QidOn(cache, pt)
    ensures Follows(ports, Freed(ports, cache, which), cache, cache')
  {
    forall pt <- ports
      ensures FollowsAt(ports[pt], Freed(ports, cache, which)[pt], QidOn(cache, pt), QidOn(cache', pt))
    {
    }
  }

  lemma LoadKept(s: State, p: PmdId, a: Action)
    requires Inv(s) && Can(s, a) && (a == Start(p) || a == Load(p) || (a == Send(p) && p == NON_PMD))
    ensures Inv(Do(s, a))
  {
    hide Inv;
    hide PmdOk;
    hide Follows;
    hide Freed;
    hide EmptyCache;
    var s', pm := Do(s, a), s.pmds[p];
    OfInv(s, p);
    LoadFollows(s, p);
    LoadShrinks(s, p);
    LoadedOk(s.pc, s'.pc, s.ports, s.target, p, pm, s'.pmds[p]);
    ThreadStep(s, s', p);
  }

  lemma NoQidOffXps(ports: map<PortId, Port>, cache: map<PortId, int>)
    requires forall pt :: pt in cache && pt in ports ==> QidOk(ports[pt], cache[pt])
    ensures forall pt <- ports :: !ports[pt].xps ==> QidOn(cache, pt) == -1
  {
  }

  lemma LoadFollows(s: State, p: PmdId)
    requires Inv(s) && p in s.pmds
    ensures Follows(s.ports, Freed(s.ports, s.pmds[p].cache, s.pmds[p].cache.Keys), s.pmds[p].cache,
                    EmptyCache(s.pmds[p].tx))
    ensures Follows(s.ports, Freed(s.ports, s.pmds[p].cache, s.pmds[p].cache.Keys), s.pmds[p].cache, map[])
  {
    hide PmdOk;
    hide Disjoint;
    hide PortsOk;
    hide Follows;
    hide Freed;
    NoQidOffXps(s.ports, s.pmds[p].cache);
    FreedFollows(s.ports, s.pmds[p].cache, s.pmds[p].cache.Keys, EmptyCache(s.pmds[p].tx));
    FreedFollows(s.ports, s.pmds[p].cache, s.pmds[p].cache.Keys, map[]);
  }

  lemma LoadShrinks(s: State, p: PmdId)
    requires Inv(s) && p in s.pmds
    ensures p == NON_PMD ==> s.pmds[p].thread == Running && !s.pmds[p].reload
  {
    OfInv(s, p);
  }

  /** A PMD that has just loaded its lists refers to nothing that it did not share. */
  lemma LoadedOk(pc: Pc, pc': Pc, ports: map<PortId, Port>, target: map<Rxq, PmdId>, p: PmdId, pm: Pmd, pm': Pmd)
    requires PmdOk(pc, ports, target, p, pm)
    requires pm' == pm.(polled := if p == NON_PMD then pm.polled else pm.shared, cache := EmptyCache(pm.tx),
                        thread := pm'.thread)
    requires
      || (pm.thread == New && pm'.thread == Running && pc' == pc)
      || (pm.thread == Running && pm.reload && pm'.thread == Loaded && pc' == pc)
      || (p == NON_PMD && pm.thread == pm'.thread && pm.needReload && pc.Signal? && p !in pc.sent
          && pc' == pc.(sent := pc.sent + {p}))
    ensures PmdOk(pc', ports, target, p, pm')
  {
    assert pm'.polled == pm'.shared && pm'.cache.Keys == pm'.tx;
    CoherentPorts(pm');
    assert SharedPorts(pm') == SharedPorts(pm);
    hide SharedPorts;
    hide OwnPorts;
    hide NoneStale;
    hide OnTarget;
  }

  lemma TerminatedOk(pc: Pc, ports: map<PortId, Port>, target: map<Rxq, PmdId>, p: PmdId, pm: Pmd)
    requires PmdOk(pc, ports, target, p, pm) && pm.thread == Exiting
    ensures PmdOk(pc, ports, target, p, pm.(polled := {}, cache := map[], thread := Exited))
  {
    var pm' := pm.(polled := {}, cache := map[], thread := Exited);
    CoherentPorts(pm');
    assert SharedPorts(pm') == SharedPorts(pm);
    hide SharedPorts;
    hide OwnPorts;
  }

  lemma TerminateKept(s: State, p: PmdId)
    requires Inv(s) && Can(s, Terminate(p))
    ensures Inv(Do(s, Terminate(p)))
  {
    hide Inv;
    hide PmdOk;
    hide Follows;
    hide Freed;
    OfInv(s, p);
    LoadFollows(s, p);
    TerminatedOk(s.pc, s.ports, s.target, p, s.pmds[p]);
    ThreadStep(s, Do(s, Terminate(p)), p);
  }

  lemma FollowsTrans(a: map<PortId, Port>, b: map<PortId, Port>, c: map<PortId, Port>,
                     x: map<PortId, int>, y: map<PortId, int>, z: map<PortId, int>)
    requires Follows(a, b, x, y) && Follows(b, c, y, z)
    ensures Follows(a, c, x, z)
  {
    forall pt <- a
      ensures FollowsAt(a[pt], c[pt], QidOn(x, pt), QidOn(z, pt))
    {
      assert FollowsAt(a[pt], b[pt], QidOn(x, pt), QidOn(y, pt));
      assert FollowsAt(b[pt], c[pt], QidOn(y, pt), QidOn(z, pt));
    }
  }

  ghost predicate QidsOk(ports: map<PortId, Port>, cache: map<PortId, int>) {
    forall pt :: pt in cache && pt in ports ==> QidOk(ports[pt], cache[pt])
  }

  lemma TakenAt(port: Port, port': Port, qid: int, qid': nat)
    requires QidOk(port, qid) && port.xps && qid' < |port.used|
    requires port' == port.(used := Bump(Bump(port.used, qid, -1), qid', 1))
    ensures FollowsAt(port, port', qid, qid')
  {
  }

  lemma TakeFollows(ports: map<PortId, Port>, cache: map<PortId, int>, pt: PortId)
    requires QidsOk(ports, cache) && pt in cache && pt in ports && ports[pt].xps && ports[pt].used != []
    ensures var ports1 := Freed(ports, cache, {pt});
            var qid := LeastUsed(ports1[pt].used);
            var ports2 := ports1[pt := ports1[pt].(used := Bump(ports1[pt].used, qid, 1))];
            Follows(ports, ports2, cache, cache[pt := qid]) && QidsOk(ports2, cache[pt := qid])
  {
    var ports1 := Freed(ports, cache, {pt});
    var qid := LeastUsed(ports1[pt].used);
    var ports2 := ports1[pt := ports1[pt].(used := Bump(ports1[pt].used, qid, 1))];
    TakenAt(ports[pt], ports2[pt], cache[pt], qid);
    forall o <- ports
      ensures FollowsAt(ports[o], ports2[o], QidOn(cache, o), QidOn(cache[pt := qid], o))
    {
      if o != pt {
        assert ports2[o] == ports[o];
      }
    }
  }

  lemma PickFollows(ports: map<PortId, Port>, cache: map<PortId, int>, pt: PortId, expired: set<PortId>)
    requires QidsOk(ports, cache) && pt in cache && pt in ports && ports[pt].xps && ports[pt].used != []
    ensures Follows(ports, Pick(ports, cache, pt, expired).0, cache, Pick(ports, cache, pt, expired).1)
    ensures Pick(ports, cache, pt, expired).1.Keys == cache.Keys
  {
    var ports1 := Freed(ports, cache, {pt});
    var qid := LeastUsed(ports1[pt].used);
    var ports2 := ports1[pt := ports1[pt].(used := Bump(ports1[pt].used, qid, 1))];
    var cache2 := cache[pt := qid];
    TakeFollows(ports, cache, pt);
    hide Follows;
    hide LeastUsed;
    hide Bump;
    ResetFollows(ports2, cache2, expired - {pt});
    FollowsTrans(ports, ports2, Freed(ports2, cache2, expired - {pt}), cache, cache2,
                 Reset(ports2, cache2, expired - {pt}));
  }

  lemma ResetFollows(ports: map<PortId, Port>, cache: map<PortId, int>, which: set<PortId>)
    requires QidsOk(ports, cache)
    ensures Follows(ports, Freed(ports, cache, which), cache, Reset(ports, cache, which))
  {
    FreedFollows(ports, cache, which, Reset(ports, cache, which));
  }

  lemma InvQids(s: State, p: PmdId)
    requires Inv(s) && p in s.pmds
    ensures QidsOk(s.ports, s.pmds[p].cache)
  {
    hide PmdOk;
    hide Disjoint;
  }

  lemma PickKept(s: State, p: PmdId, pt: PortId, expired: set<PortId>)
    requires Inv(s) && Can(s, UseTx(p, pt, expired))
    ensures Inv(Do(s, UseTx(p, pt, expired)))
  {
    hide Inv;
    hide Follows;
    hide Pick;
    OfInv(s, p);
    InvQids(s, p);
    PickFollows(s.ports, s.pmds[p].cache, pt, expired);
    var s' := PickTx(s, p, pt, expired);
    CacheOk(s.pc, s.ports, s.target, p, s.pmds[p], s'.pmds[p]);
    hide PmdOk;
    ThreadStep(s, s', p);
  }

  /** Queue `k` of the port is shared with the fewest other PMDs, and is the first such queue. */
  ghost predicate LeastShared(s: State, p: PmdId, pt: PortId, k: int)
    requires pt in s.ports
  {
    && 0 <= k < |s.ports[pt].used|
    && forall i :: 0 <= i < |s.ports[pt].used| ==>
         |OtherUsers(s.pmds, p, pt, k)| <= |OtherUsers(s.pmds, p, pt, i)| &&
         (i < k ==> |OtherUsers(s.pmds, p, pt, k)| < |OtherUsers(s.pmds, p, pt, i)|)
  }

  /** Nothing but the cache of `p` and the ports has changed. */
  ghost predicate SameButCache(s: State, s': State, p: PmdId)
    requires p in s.pmds
  {
    && p in s'.pmds && s' == s.(pmds := s'.pmds, ports := s'.ports)
    && s'.pmds == s.pmds[p := s.pmds[p].(cache := s'.pmds[p].cache)]
  }

  /** Of the entries other than `pt`, those that have expired on XPS ports hold no id any more, and the others what they
      held. */
  ghost predicate ExpiredGiven(ports: map<PortId, Port>, cache: map<PortId, int>, cache': map<PortId, int>, pt: PortId,
                               expired: set<PortId>) {
    && cache'.Keys == cache.Keys
    && forall o <- cache :: o != pt ==>
         cache'[o] == if o in expired && o in ports && ports[o].xps then -1 else cache[o]
  }

  /** A PMD thread that sends on an XPS port keeps its tx queue while that is alive, and nothing changes.  Otherwise it
      gets the queue that the fewest other PMDs use, and gives back every other id that has expired. */
  ghost predicate TakesTx(s: State, p: PmdId, pt: PortId, expired: set<PortId>, s': State) {
    && p in s.pmds && pt in s.pmds[p].cache && pt in s.ports
    && if s.pmds[p].cache[pt] >= 0 && pt !in expired then s' == s
       else
         && SameButCache(s, s', p) && pt in s'.pmds[p].cache
         && LeastShared(s, p, pt, s'.pmds[p].cache[pt])
         && ExpiredGiven(s.ports, s.pmds[p].cache, s'.pmds[p].cache, pt, expired)
  }

  lemma UseTxExact(s: State, p: PmdId, pt: PortId, expired: set<PortId>)
    requires Inv(s) && Can(s, UseTx(p, pt, expired))
    ensures TakesTx(s, p, pt, expired, Do(s, UseTx(p, pt, expired)))
  {
    hide Inv;
    hide TakesTx;
    InvCounts(s);
    PickTakes(s, p, pt, expired);
    hide PickTx;
  }

  lemma InvCounts(s: State)
    requires Inv(s)
    ensures CountsOk(s)
  {
  }

  lemma PickTakes(s: State, p: PmdId, pt: PortId, expired: set<PortId>)
    requires CountsOk(s) && p in s.pmds && pt in s.pmds[p].cache && pt in s.ports && s.ports[pt].xps
    requires s.ports[pt].used != []
    ensures TakesTx(s, p, pt, expired,
                    if s.pmds[p].cache[pt] >= 0 && pt !in expired then s else PickTx(s, p, pt, expired))
  {
    TakenLeast(s, p, pt);
    hide CountsOk;
    hide LeastShared;
    PickExact(s.ports, s.pmds[p].cache, pt, expired);
    hide Pick;
    hide ExpiredGiven;
  }

  lemma PickExact(ports: map<PortId, Port>, cache: map<PortId, int>, pt: PortId, expired: set<PortId>)
    requires pt in cache && pt in ports && ports[pt].used != []
    ensures var cache' := Pick(ports, cache, pt, expired).1;
            && ExpiredGiven(ports, cache, cache', pt, expired)
            && pt in cache' && cache'[pt] == LeastUsed(Freed(ports, cache, {pt})[pt].used)
  {
    hide LeastUsed;
    hide Bump;
  }

  lemma TakenLeast(s: State, p: PmdId, pt: PortId)
    requires CountsOk(s) && p in s.pmds && pt in s.pmds[p].cache && pt in s.ports && s.ports[pt].xps
    requires s.ports[pt].used != []
    ensures LeastShared(s, p, pt, LeastUsed(Freed(s.ports, s.pmds[p].cache, {pt})[pt].used))
  {
    var used, cache := s.ports[pt].used, s.pmds[p].cache;
    var used1 := Freed(s.ports, cache, {pt})[pt].used;
    forall k | 0 <= k < |used|
      ensures used1[k] == |OtherUsers(s.pmds, p, pt, k)|
    {
      UsersSplit(s.pmds, p, pt, k);
    }
    hide OtherUsers;
    hide Freed;
  }

  lemma CacheOk(pc: Pc, ports: map<PortId, Port>, target: map<Rxq, PmdId>, p: PmdId, pm: Pmd, pm': Pmd)
    requires PmdOk(pc, ports, target, p, pm) && pm' == pm.(cache := pm'.cache) && pm'.cache.Keys == pm.cache.Keys
    requires pm.thread == Running
    ensures PmdOk(pc, ports, target, p, pm')
  {
    assert SharedPorts(pm') == SharedPorts(pm);
    assert OwnPorts(pm') == OwnPorts(pm);
    hide SharedPorts;
    hide OwnPorts;
  }

  // ---------------------------------------------------------------- changes to the ports

  /** The ports that a PMD refers to are still there, with as many rx queues. */
  ghost predicate RefsKept(ports: map<PortId, Port>, ports': map<PortId, Port>, pm: Pmd) {
    forall pt <- SharedPorts(pm) + OwnPorts(pm) :: pt in ports && pt in ports' && ports'[pt].nRxq == ports[pt].nRxq
  }

  lemma RefsKeptOk(ports: map<PortId, Port>, ports': map<PortId, Port>, pm: Pmd)
    requires RefsOk(ports, pm) && RefsKept(ports, ports', pm)
    ensures RefsOk(ports', pm)
  {
    assert forall q <- pm.shared :: q.port in SharedPorts(pm);
    assert forall q <- pm.polled :: q.port in OwnPorts(pm);
    hide SharedPorts;
    hide OwnPorts;
  }

  /** A change to the ports before the stale ports are dropped, or after the reconfiguration has ended. */
  lemma EarlyStep(s: State, s': State)
    requires Inv(s) && s'.pmds == s.pmds && s.pc.At? && s'.pc.At? && Level(s'.pc) <= 7
    requires forall p <- s.pmds :: RefsKept(s.ports, s'.ports, s.pmds[p])
    requires CountsOk(s')
    ensures Inv(s')
  {
    hide CountsOk;
    hide Disjoint;
    hide RefsOk;
    hide RefsKept;
    hide NoneStale;
    hide OnTarget;
    hide Coherent;
    forall p <- s.pmds
      ensures PmdOk(s'.pc, s'.ports, s'.target, p, s'.pmds[p])
    {
      OfInv(s, p);
      RefsKeptOk(s.ports, s'.ports, s.pmds[p]);
    }
  }

  lemma RefersTo(s: State, p: PmdId)
    requires Inv(s) && p in s.pmds
    ensures SharedPorts(s.pmds[p]) + OwnPorts(s.pmds[p]) <= s.ports.Keys
    ensures s.pmds[p].cache.Keys <= OwnPorts(s.pmds[p])
    ensures Level(s.pc) >= 11 ==> forall pt <- SharedPorts(s.pmds[p]) + OwnPorts(s.pmds[p]) :: !Stale(s.ports, pt)
  {
    OfInv(s, p);
    hide Level;
    hide Stale;
  }

  lemma EarlyCounts(s: State, a: Action)
    requires CountsOk(s) && Can(s, a) && (a.AddPort? || a.DelPort? || a.MarkPort?)
    requires forall p <- s.pmds :: s.pmds[p].cache.Keys <= s.ports.Keys
    ensures CountsOk(Do(s, a))
  {
    hide Users;
  }

  lemma EarlyPortKept(s: State, a: Action)
    requires Inv(s) && Can(s, a) && (a.AddPort? || a.DelPort? || a.MarkPort?)
    ensures Inv(Do(s, a))
  {
    hide PmdOk;
    hide ValidTarget;
    hide Served;
    hide Users;
    hide Disjoint;
    hide SharedPorts;
    hide OwnPorts;
    var s' := Do(s, a);
    forall p <- s.pmds
      ensures RefsKept(s.ports, s'.ports, s.pmds[p]) && s.pmds[p].cache.Keys <= s.ports.Keys
    {
      RefersTo(s, p);
    }
    EarlyCounts(s, a);
    hide Inv;
    hide CountsOk;
    EarlyStep(s, s');
  }

  lemma DestroyKept(s: State)
    requires Inv(s) && Can(s, Destroy)
    ensures Inv(Do(s, Destroy))
  {
    hide PmdOk;
    hide ValidTarget;
    hide Served;
    hide Users;
    hide Disjoint;
    hide SharedPorts;
    hide OwnPorts;
    var s' := Do(s, Destroy);
    forall p <- s.pmds
      ensures RefsKept(s.ports, s'.ports, s.pmds[p])
    {
      RefersTo(s, p);
    }
    assert CountsOk(s');
    hide Inv;
    hide CountsOk;
    EarlyStep(s, s');
  }

  /** The port does not appear in any list, shared or private, of any PMD. */
  ghost predicate Unreferenced(s: State, pt: PortId) {
    forall p <- s.pmds :: pt !in SharedPorts(s.pmds[p]) && pt !in OwnPorts(s.pmds[p])
  }

  lemma StaleUnreferenced(s: State, pt: PortId)
    requires Inv(s) && Level(s.pc) >= 11 && pt in s.ports && Stale(s.ports, pt)
    ensures Unreferenced(s, pt)
  {
    forall p <- s.pmds
      ensures pt !in SharedPorts(s.pmds[p]) && pt !in OwnPorts(s.pmds[p])
    {
      RefersTo(s, p);
    }
  }

  lemma ReconfOk(ports: map<PortId, Port>, ports': map<PortId, Port>, target: map<Rxq, PmdId>, p: PmdId, pm: Pmd,
                 pt: PortId)
    requires PmdOk(At(ReconfPorts), ports, target, p, pm)
    requires pt !in SharedPorts(pm) && pt !in OwnPorts(pm)
    requires forall o <- ports :: o != pt ==> o in ports' && ports'[o] == ports[o]
    ensures PmdOk(At(ReconfPorts), ports', target, p, pm)
  {
    assert RefsKept(ports, ports', pm);
    RefsKeptOk(ports, ports', pm);
    assert forall o <- SharedPorts(pm) + OwnPorts(pm) :: Stale(ports', o) <==> Stale(ports, o);
    hide SharedPorts;
    hide OwnPorts;
    hide RefsOk;
    hide Stale;
  }

  lemma ReconfPortKept(s: State, a: Action)
    requires Inv(s) && Can(s, a) && a.ReconfPort?
    ensures Inv(Do(s, a))
  {
    hide PmdOk;
    hide Disjoint;
    hide SharedPorts;
    var s' := Do(s, a);
    StaleUnreferenced(s, a.pt);
    forall p <- s.pmds
      ensures PmdOk(s'.pc, s'.ports, s'.target, p, s'.pmds[p]) && a.pt !in s.pmds[p].cache
    {
      RefersTo(s, p);
      ReconfOk(s.ports, s'.ports, s.target, p, s.pmds[p], a.pt);
    }
    hide OwnPorts;
    ReconfCounts(s, s', a.pt);
  }

  lemma ReconfCounts(s: State, s': State, pt: PortId)
    requires CountsOk(s) && s'.pmds == s.pmds && forall p <- s.pmds :: pt !in s.pmds[p].cache
    requires forall o <- s'.ports :: o != pt ==> o in s.ports && s'.ports[o] == s.ports[o]
    requires pt in s'.ports ==> forall k :: 0 <= k < |s'.ports[pt].used| ==> s'.ports[pt].used[k] == 0
    ensures CountsOk(s')
  {
    forall k
      ensures Users(s.pmds, pt, k) == {}
    {
    }
  }

  // ---------------------------------------------------------------- every run

  /** Every action of either side keeps the invariant. */
  lemma InvKept(s: State, a: Action)
    requires Inv(s) && Can(s, a)
    ensures Inv(Do(s, a))
  {
    hide Inv;
    match a
    case AddPort(_) => EarlyPortKept(s, a);
    case DelPort(_) => EarlyPortKept(s, a);
    case MarkPort(_) => EarlyPortKept(s, a);
    case Begin => MoveKept(s, a);
    case DeletesDone => MoveKept(s, a);
    case CreatesDone => MoveKept(s, a);
    case MarksDone => MoveKept(s, a);
    case StaleDone => MoveKept(s, a);
    case PortsDone => MoveKept(s, a);
    case MovedDone => MoveKept(s, a);
    case RxqsDone => MoveKept(s, a);
    case TxDone => MoveKept(s, a);
    case SendsDone => MoveKept(s, a);
    case WaitsDone => MoveKept(s, a);
    case AskReload(p) => AskReloadKept(s, p);
    case BeginDelete(p) => BeginDeleteKept(s, p);
    case FinishDelete => FinishDeleteKept(s);
    case CreatePmd(p) => CreateKept(s, p);
    case DropStale(p) => DropStaleKept(s, p);
    case ReconfPort(_, _, _, _, _) => ReconfPortKept(s, a);
    case SetSchedule(target) => SetScheduleKept(s, target);
    case DropMoved(p) => DropMovedKept(s, p);
    case AddRxq(q) => AddRxqKept(s, q);
    case AddTxPort(p, pt) => AddTxKept(s, p, pt);
    case Destroy => DestroyKept(s);
    case Send(p) => if p == NON_PMD { LoadKept(s, p, a); } else { SendKept(s, p); }
    case Acked(p) => AckedKept(s, p);
    case Start(p) => LoadKept(s, p, a);
    case Load(p) => LoadKept(s, p, a);
    case Done(p) => DoneKept(s, p);
    case Terminate(p) => TerminateKept(s, p);
    case UseTx(p, pt, expired) => PickKept(s, p, pt, expired);
  }

  lemma InitOk(s: State)
    requires Init(s)
    ensures Inv(s)
  {
    assert PmdOk(s.pc, s.ports, s.target, NON_PMD, s.pmds[NON_PMD]);
    hide PmdOk;
  }

  lemma {:induction false} RunOk(run: seq<State>, actions: seq<Action>, i: nat)
    requires IsRun(run, actions) && i < |run|
    ensures Inv(run[i])
  {
    hide Inv;
    if i == 0 {
      InitOk(run[0]);
    } else {
      RunOk(run, actions, i - 1);
      assert run[i] == Do(run[i - 1], actions[i - 1]);
      InvKept(run[i - 1], actions[i - 1]);
    }
  }

  /** In every state of every run, no rx queue is in the shared or private poll lists of two PMDs, and
      every port or queue that a PMD refers to exists. */
  lemma ExclusivePolling(run: seq<State>, actions: seq<Action>, i: nat, a: PmdId, b: PmdId)
    requires IsRun(run, actions) && i < |run| && a in run[i].pmds && b in run[i].pmds && a != b
    ensures Apart(run[i].pmds[a], run[i].pmds[b])
    ensures RefsOk(run[i].ports, run[i].pmds[a])
  {
    RunOk(run, actions, i);
    OfInv(run[i], a);
  }

  /** port_reconfigure() frees the tx queue counters and zeroes the new ones, and may destroy the port.  When it
      runs, no PMD refers to the port, and the counters it throws away are all zero. */
  lemma ReconfigureUnused(run: seq<State>, actions: seq<Action>, i: nat)
    requires IsRun(run, actions) && i < |actions| && actions[i].ReconfPort?
    ensures Unreferenced(run[i], actions[i].pt)
    ensures forall k :: 0 <= k < |run[i].ports[actions[i].pt].used| ==> run[i].ports[actions[i].pt].used[k] == 0
  {
    hide IsRun;
    hide Inv;
    hide Do;
    RunStep(run, actions, i);
    RunOk(run, actions, i);
    StaleUnreferenced(run[i], actions[i].pt);
    UnreferencedUnused(run[i], actions[i].pt);
  }

  lemma UnreferencedUnused(s: State, pt: PortId)
    requires Inv(s) && pt in s.ports && Unreferenced(s, pt)
    ensures forall k :: 0 <= k < |s.ports[pt].used| ==> s.ports[pt].used[k] == 0
  {
    hide PmdOk;
    hide Disjoint;
    hide SharedPorts;
    forall k | 0 <= k < |s.ports[pt].used|
      ensures s.ports[pt].used[k] == 0
    {
      forall p <- s.pmds
        ensures pt !in s.pmds[p].cache
      {
        assert s.pmds[p].cache.Keys <= OwnPorts(s.pmds[p]);
      }
      assert Users(s.pmds, pt, k) == {};
    }
  }

  /** A port removed from the datapath is destroyed only when no PMD refers to it. */
  lemma DestroyUnused(run: seq<State>, actions: seq<Action>, i: nat, pt: PortId)
    requires IsRun(run, actions) && i < |actions| && actions[i].Destroy? && pt in run[i].ports && !run[i].ports[pt].inDp
    ensures Unreferenced(run[i], pt)
  {
    hide IsRun;
    hide Inv;
    hide Do;
    RunStep(run, actions, i);
    RunOk(run, actions, i);
    StaleUnreferenced(run[i], pt);
  }

  /** In every state, each tx queue counter is the number of cached tx ports that hold that queue. */
  lemma CountersExact(run: seq<State>, actions: seq<Action>, i: nat, pt: PortId, k: nat)
    requires IsRun(run, actions) && i < |run| && pt in run[i].ports && k < |run[i].ports[pt].used|
    ensures run[i].ports[pt].used[k] == |Users(run[i].pmds, pt, k)|
  {
    RunOk(run, actions, i);
  }

  /** When the reconfiguration ends, the new schedule is in force: every PMD polls exactly the queues
      assigned to it. */
  lemma ScheduleInForce(run: seq<State>, actions: seq<Action>, i: nat, q: Rxq, p: PmdId)
    requires IsRun(run, actions) && i < |actions| && actions[i].Destroy? && p in run[i].pmds
    ensures q in run[i].pmds[p].polled <==> q in run[i].target && run[i].target[q] == p
  {
    hide IsRun;
    hide Inv;
    hide Do;
    RunStep(run, actions, i);
    RunOk(run, actions, i);
    FinishedCoherent(run[i], p);
  }

  // ---------------------------------------------------------------- tx ports at the end

  /** Every port is among the shared tx ports of every PMD that is to have it. */
  ghost predicate TxServed(s: State) {
    forall p, pt :: WantsTx(s, p, pt) ==> pt in s.pmds[p].tx
  }

  ghost predicate TxInv(s: State) {
    20 <= Level(s.pc) ==> TxServed(s)
  }

  /** The steps after AddTx leave the shared lists of the PMDs and the ports of the datapath as they are. */
  ghost predicate SameShared(s: State, s': State) {
    && s'.pmds.Keys == s.pmds.Keys
    && (forall p <- s.pmds :: s'.pmds[p].shared == s.pmds[p].shared && s'.pmds[p].tx == s.pmds[p].tx)
    && (forall pt <- s'.ports :: pt in s.ports && s'.ports[pt] == s.ports[pt].(used := s'.ports[pt].used))
  }

  predicate IsLate(a: Action) {
    || a.Send? || a.SendsDone? || a.Acked? || a.WaitsDone?
    || a.Start? || a.Load? || a.Done? || a.Terminate? || a.UseTx?
  }

  lemma LateActions(s: State, a: Action)
    requires Can(s, a) && 20 <= Level(s.pc) && 20 <= Level(Do(s, a).pc)
    ensures IsLate(a)
  {
    hide WantsTx;
    hide Served;
    hide LoadPorts;
    hide LoadLists;
    hide PickTx;
    hide ValidTarget;
  }

  lemma PickSame(s: State, p: PmdId, pt: PortId, expired: set<PortId>)
    requires p in s.pmds && pt in s.pmds[p].cache && pt in s.ports && s.ports[pt].used != []
    ensures SameShared(s, PickTx(s, p, pt, expired))
  {
    hide LeastUsed;
    hide Bump;
  }

  lemma LoadSame(s: State, p: PmdId, thread: Thread)
    requires p in s.pmds
    ensures SameShared(s, LoadPorts(s, p)) && SameShared(s, LoadLists(s, p, thread))
  {
    hide Bump;
  }

  lemma UseSame(s: State, p: PmdId, pt: PortId, expired: set<PortId>)
    requires Can(s, UseTx(p, pt, expired))
    ensures SameShared(s, Do(s, UseTx(p, pt, expired)))
  {
    PickSame(s, p, pt, expired);
    hide PickTx;
  }

  lemma RaiseSame(s: State, p: PmdId, pc: Pc)
    requires p in s.pmds
    ensures SameShared(s, SetPmd(s, p, s.pmds[p].(reload := true)).(pc := pc))
    ensures SameShared(s, LoadPorts(s, p)) ==> SameShared(s, LoadPorts(s, p).(pc := pc))
  {
    hide LoadPorts;
  }

  lemma SendSame(s: State, p: PmdId)
    requires Can(s, Send(p))
    ensures SameShared(s, Do(s, Send(p)))
  {
    hide SameShared;
    hide LoadPorts;
    hide SetPmd;
    LoadSame(s, p, Running);
    RaiseSame(s, p, s.pc.(sent := s.pc.sent + {p}));
  }

  lemma ReloadSame(s: State, p: PmdId, a: Action)
    requires Can(s, a) && (a == Start(p) || a == Load(p))
    ensures SameShared(s, Do(s, a))
  {
    hide SameShared;
    hide LoadLists;
    LoadSame(s, p, if a == Start(p) then Running else Loaded);
  }

  lemma FlagsSame(s: State, a: Action)
    requires Can(s, a) && (a.SendsDone? || a.Acked? || a.WaitsDone? || a.Done? || a.Terminate?)
    ensures SameShared(s, Do(s, a))
  {
    hide Bump;
  }

  lemma LateSame(s: State, a: Action)
    requires Can(s, a) && IsLate(a)
    ensures SameShared(s, Do(s, a))
  {
    hide Do;
    hide Can;
    hide SameShared;
    match a
    case UseTx(p, pt, expired) => UseSame(s, p, pt, expired);
    case Send(p) => SendSame(s, p);
    case Start(p) => ReloadSame(s, p, a);
    case Load(p) => ReloadSame(s, p, a);
    case _ => FlagsSame(s, a);
  }

  lemma TxKept(s: State, a: Action)
    requires TxInv(s) && Can(s, a)
    ensures TxInv(Do(s, a))
  {
    if 20 <= Level(Do(s, a).pc) {
      if 20 <= Level(s.pc) {
        LateActions(s, a);
        LateSame(s, a);
        hide Do;
        hide Can;
      } else {
        LateBegins(s, a);
        hide Do;
      }
    }
  }

  /** Only the end of AddTx leads to the last reload. */
  lemma LateBegins(s: State, a: Action)
    requires Can(s, a) && Level(s.pc) < 20 <= Level(Do(s, a).pc)
    ensures a == TxDone && Do(s, a) == s.(pc := Signal(Finish, {}))
  {
    hide LeastUsed;
    hide Bump;
    hide ValidTarget;
    hide WantsTx;
    hide Served;
  }

  lemma {:induction false} TxRunOk(run: seq<State>, actions: seq<Action>, i: nat)
    requires IsRun(run, actions) && i < |run|
    ensures TxInv(run[i])
  {
    hide TxInv;
    if i == 0 {
      TxStart(run[0]);
    } else {
      TxRunOk(run, actions, i - 1);
      hide Do;
      hide Can;
      TxKept(run[i - 1], actions[i - 1]);
    }
  }

  lemma TxStart(s: State)
    requires Init(s)
    ensures TxInv(s)
  {
  }

  /** When the reconfiguration ends, every PMD that polls a queue, and the non-PMD entry, can send on every port of the
      datapath, and no PMD has any other port in its cache. */
  lemma TxInForce(run: seq<State>, actions: seq<Action>, i: nat, p: PmdId, pt: PortId)
    requires IsRun(run, actions) && i < |actions| && actions[i].Destroy? && p in run[i].pmds
    ensures pt in run[i].ports && run[i].ports[pt].inDp && (p == NON_PMD || run[i].pmds[p].polled != {}) ==>
              pt in run[i].pmds[p].cache
    ensures pt in run[i].pmds[p].cache ==>
              pt in run[i].ports && run[i].ports[pt].inDp && !run[i].ports[pt].needReconf
  {
    hide IsRun;
    hide Inv;
    hide Do;
    RunStep(run, actions, i);
    RunOk(run, actions, i);
    TxRunOk(run, actions, i);
    FinishedCoherent(run[i], p);
    CachedFresh(run[i], p);
    assert WantsTx(run[i], p, pt) <==>
      p in run[i].pmds && (run[i].pmds[p].shared != {} || p == NON_PMD) && pt in run[i].ports && run[i].ports[pt].inDp;
  }

  lemma CachedFresh(s: State, p: PmdId)
    requires Inv(s) && p in s.pmds && s.pc == At(Finish)
    ensures forall pt <- s.pmds[p].cache :: pt in s.ports && !Stale(s.ports, pt)
  {
    OfInv(s, p);
    assert s.pmds[p].cache.Keys <= OwnPorts(s.pmds[p]);
    hide ThreadOk;
  }

  /** A port that is new or marked is reconfigured before the reconfiguration ends, unless it leaves the datapath. */
  lemma MarkedReconfigured(run: seq<State>, actions: seq<Action>, i: nat, k: nat, pt: PortId)
    requires IsRun(run, actions) && i < k < |actions| && (actions[i] == AddPort(pt) || actions[i] == MarkPort(pt))
    requires actions[k].Destroy? && pt in run[k].ports && run[k].ports[pt].inDp
    ensures ReconfiguredIn(actions, i, k, pt)
  {
    hide IsRun;
    hide Inv;
    hide Do;
    hide ReconfiguredIn;
    MarkedUntil(run, actions, i, k, pt);
    RunStep(run, actions, k);
    RunOk(run, actions, k);
    InvPorts(run[k]);
  }

  lemma InvPorts(s: State)
    requires Inv(s)
    ensures s.pc == At(Finish) ==> forall pt <- s.ports :: s.ports[pt].inDp ==> !s.ports[pt].needReconf
  {
    hide PmdOk;
    hide Disjoint;
    hide CountsOk;
  }

  /** Some action between `i` and `k` has reconfigured the port with success. */
  ghost predicate ReconfiguredIn(actions: seq<Action>, i: nat, k: nat, pt: PortId)
    requires k <= |actions|
  {
    exists j :: i < j < k && actions[j].ReconfPort? && actions[j].pt == pt && actions[j].ok
  }

  ghost predicate StillMarked(s: State, pt: PortId) {
    pt in s.ports ==> s.ports[pt].needReconf
  }

  lemma {:induction false} MarkedUntil(run: seq<State>, actions: seq<Action>, i: nat, k: nat, pt: PortId)
    requires IsRun(run, actions) && i < k <= |actions| && (actions[i] == AddPort(pt) || actions[i] == MarkPort(pt))
    ensures k < |run| && (StillMarked(run[k], pt) || ReconfiguredIn(actions, i, k, pt))
  {
    hide Do;
    hide Can;
    hide StillMarked;
    hide IsRun;
    RunNext(run, actions, k - 1);
    if k == i + 1 {
      MarkedNow(run[i], actions[i], pt);
    } else {
      MarkedUntil(run, actions, i, k - 1, pt);
      if StillMarked(run[k - 1], pt) {
        MarkKept(run[k - 1], actions[k - 1], pt);
      }
    }
  }

  lemma RunNext(run: seq<State>, actions: seq<Action>, i: nat)
    requires IsRun(run, actions) && i < |actions|
    ensures i + 1 < |run| && Can(run[i], actions[i]) && run[i + 1] == Do(run[i], actions[i])
  {
    hide Do;
    hide Can;
    hide Init;
  }

  lemma MarkedNow(s: State, a: Action, pt: PortId)
    requires Can(s, a) && (a == AddPort(pt) || a == MarkPort(pt))
    ensures StillMarked(Do(s, a), pt)
  {
  }

  /** Only a reconfiguration with success takes the mark off. */
  lemma MarkKept(s: State, a: Action, pt: PortId)
    requires Can(s, a) && StillMarked(s, pt)
    ensures StillMarked(Do(s, a), pt) || (a.ReconfPort? && a.pt == pt && a.ok)
  {
    if IsLate(a) {
      LateSame(s, a);
      hide Do;
      hide Can;
    } else {
      EarlyMark(s, a, pt);
      hide *;
    }
  }

  lemma EarlyMark(s: State, a: Action, pt: PortId)
    requires Can(s, a) && StillMarked(s, pt) && !IsLate(a)
    ensures StillMarked(Do(s, a), pt) || (a.ReconfPort? && a.pt == pt && a.ok)
  {
    hide ValidTarget;
    hide WantsTx;
    hide Served;
  }

  /** The end of a reconfiguration destroys exactly the ports taken out of the datapath. */
  lemma DestroyExact(s: State, pt: PortId)
    requires Can(s, Destroy)
    ensures var s' := Do(s, Destroy);
            && (pt in s'.ports <==> pt in s.ports && s.ports[pt].inDp)
            && (pt in s'.ports ==> s'.ports[pt] == s.ports[pt]) && s'.pmds == s.pmds
  {
  }

  lemma RunStep(run: seq<State>, actions: seq<Action>, i: nat)
    requires IsRun(run, actions) && i < |actions|
    ensures i < |run| && Can(run[i], actions[i])
  {
    hide Can;
    hide Init;
  }

  lemma FinishedCoherent(s: State, p: PmdId)
    requires Inv(s) && p in s.pmds
    ensures s.pc == At(Finish) ==> Coherent(s.pmds[p]) && OnTarget(s.target, p, s.pmds[p].shared) && Served(s)
  {
    OfInv(s, p);
    hide RefsOk;
    hide ThreadOk;
    hide NoneStale;
    hide CountsOk;
    hide Disjoint;
    hide Served;
    hide OnTarget;
  }
}
