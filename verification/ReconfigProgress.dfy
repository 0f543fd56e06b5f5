/** A reconfiguration never gets stuck: from every reachable state, steps of the main thread and of the PMD threads
    bring it to its end. */
module ReconfigProgress {
  import opened Reconfig
  import opened ReconfigSafety

  /** The actions lead from `s` to `t`. */
  ghost predicate Leads(s: State, actions: seq<Action>, t: State)
    decreases |actions|
  {
    if actions == [] then s == t
    else Can(s, actions[0]) && Leads(Do(s, actions[0]), actions[1..], t)
  }

  lemma {:induction false} LeadsOn(s: State, a: seq<Action>, t: State, b: seq<Action>, u: State)
    requires Leads(s, a, t) && Leads(t, b, u)
    ensures Leads(s, a + b, u)
    decreases |a|
  {
    hide Do;
    hide Can;
    if a == [] {
      assert a + b == b;
    } else {
      LeadsOn(Do(s, a[0]), a[1..], t, b, u);
      assert (a + b)[1..] == a[1..] + b;
    }
  }

  lemma OneLeads(s: State, a: Action)
    requires Can(s, a)
    ensures Leads(s, [a], Do(s, a))
  {
    hide Do;
    hide Can;
    assert Leads(Do(s, a), [], Do(s, a));
  }

  // ---------------------------------------------------------------- how far there is to go

  /** The stages still to come. */
  function Ahead(pc: Pc): nat {
    match pc
    case At(Idle) => 0
    case Deleting(_) => 50
    case At(st) => 40 - 3 * Rank(st)
    case Signal(next, _) => 42 - 3 * Rank(next)
    case Wait(next) => 41 - 3 * Rank(next)
  }

  /** The steps left to a PMD thread until it has reloaded, and ended if it is to. */
  function Busy(pm: Pmd): nat {
    match pm.thread
    case New => if pm.reload then 4 else 0
    case Running => if pm.reload then 3 else 0
    case Loaded => if pm.reload then 2 else 0
    case Exiting => 1
    case Exited => 0
  }

  ghost function Marked(s: State): set<PmdId> { set p | p in s.pmds && s.pmds[p].needReload }

  ghost function ToReconf(s: State): set<PortId> {
    set pt | pt in s.ports && s.ports[pt].inDp && s.ports[pt].needReconf
  }

  ghost function Unserved(s: State): set<Rxq> {
    set q | q in s.target && !(s.target[q] in s.pmds && q in s.pmds[s.target[q]].shared)
  }

  ghost function NoTx(s: State): set<(PmdId, PortId)> {
    set p, pt | p in s.pmds && pt in s.ports && WantsTx(s, p, pt) && pt !in s.pmds[p].tx :: (p, pt)
  }

  /** What is left to do in the present stage. */
  ghost function ToDo(s: State): nat {
    match s.pc
    case Deleting(p) => if p in s.pmds then Busy(s.pmds[p]) else 0
    case At(RemoveStale(done)) => |s.pmds.Keys - done|
    case At(RemoveMoved(done)) => |s.pmds.Keys - done|
    case At(ReconfPorts) => |ToReconf(s)|
    case At(AddRxqs) => |Unserved(s)|
    case At(AddTx) => |NoTx(s)|
    case Signal(_, sent) => |Marked(s) - sent|
    case Wait(_) => |Marked(s)|
    case _ => 0
  }

  /** Nearer to the end. */
  ghost predicate Nearer(s: State, t: State) {
    Ahead(t.pc) < Ahead(s.pc) || (Ahead(t.pc) == Ahead(s.pc) && ToDo(t) < ToDo(s))
  }

  lemma Smaller<T>(a: set<T>, b: set<T>, x: T)
    requires a <= b && x in b && x !in a
    ensures |a| < |b|
  {
    assert a <= b - {x};
    Subset(a, b - {x});
  }

  lemma Subset<T>(a: set<T>, b: set<T>)
    requires a <= b
    ensures |a| <= |b|
  {
    assert b == a + (b - a);
  }

  // ---------------------------------------------------------------- one PMD thread

  /** The next step of a PMD thread on its way to the end of a reload. */
  function ThreadAction(p: PmdId, pm: Pmd): Action {
    match pm.thread
    case New => Start(p)
    case Running => Load(p)
    case Loaded => Done(p)
    case Exiting => Terminate(p)
    case Exited => Terminate(p)
  }

  /** Only the thread of `p` has moved on, by one step. */
  ghost predicate ThreadMoved(s: State, t: State, p: PmdId) {
    && p in s.pmds && t.pmds.Keys == s.pmds.Keys && t.pc == s.pc
    && (forall o <- s.pmds :: t.pmds[o].needReload == s.pmds[o].needReload)
    && Busy(t.pmds[p]) < Busy(s.pmds[p])
  }

  lemma ThreadStepped(s: State, p: PmdId)
    requires Inv(s) && p in s.pmds && Busy(s.pmds[p]) > 0
    ensures var a := ThreadAction(p, s.pmds[p]);
            Can(s, a) && Inv(Do(s, a)) && ThreadMoved(s, Do(s, a), p)
  {
    var a := ThreadAction(p, s.pmds[p]);
    hide Inv;
    ThreadCan(s, p);
    ThreadDid(s, p);
    hide Do;
    hide Can;
    InvKept(s, a);
  }

  lemma ThreadCan(s: State, p: PmdId)
    requires p in s.pmds && Busy(s.pmds[p]) > 0
    ensures Can(s, ThreadAction(p, s.pmds[p]))
  {
  }

  lemma LoadMoved(s: State, p: PmdId, thread: Thread)
    requires p in s.pmds
    ensures var t := LoadLists(s, p, thread);
            && t.pmds.Keys == s.pmds.Keys && t.pc == s.pc
            && (forall o <- s.pmds :: t.pmds[o].needReload == s.pmds[o].needReload)
            && t.pmds[p].reload == s.pmds[p].reload && t.pmds[p].thread == thread
  {
    hide Freed;
    hide EmptyCache;
  }

  lemma LoadDid(s: State, p: PmdId, a: Action)
    requires p in s.pmds && Busy(s.pmds[p]) > 0 && a == ThreadAction(p, s.pmds[p]) && (a == Start(p) || a == Load(p))
    requires Can(s, a)
    ensures ThreadMoved(s, Do(s, a), p)
  {
    LoadMoved(s, p, if a == Start(p) then Running else Loaded);
    hide LoadLists;
  }

  lemma EndDid(s: State, p: PmdId, a: Action)
    requires p in s.pmds && Busy(s.pmds[p]) > 0 && a == ThreadAction(p, s.pmds[p])
    requires a == Done(p) || a == Terminate(p)
    requires Can(s, a)
    ensures ThreadMoved(s, Do(s, a), p)
  {
    hide Freed;
  }

  lemma ThreadDid(s: State, p: PmdId)
    requires p in s.pmds && Busy(s.pmds[p]) > 0 && Can(s, ThreadAction(p, s.pmds[p]))
    ensures ThreadMoved(s, Do(s, ThreadAction(p, s.pmds[p])), p)
  {
    var a := ThreadAction(p, s.pmds[p]);
    hide Do;
    hide Can;
    hide ThreadMoved;
    if a == Start(p) || a == Load(p) {
      LoadDid(s, p, a);
    } else {
      EndDid(s, p, a);
    }
  }

  /** A PMD that has been asked to reload comes to have reloaded, and is acknowledged. */
  lemma Acknowledge(s: State, p: PmdId) returns (actions: seq<Action>, t: State)
    requires Inv(s) && s.pc.Wait? && p in s.pmds && s.pmds[p].needReload
    ensures Leads(s, actions, t) && Inv(t) && t.pc == s.pc && Marked(t) == Marked(s) - {p}
    decreases Busy(s.pmds[p])
  {
    hide Inv;
    hide Do;
    hide Can;
    hide Marked;
    hide Leads;
    if s.pmds[p].reload {
      WaitBusy(s, p);
      var a := ThreadAction(p, s.pmds[p]);
      ThreadStepped(s, p);
      SameMarked(s, Do(s, a), p);
      var rest;
      rest, t := Acknowledge(Do(s, a), p);
      LeadsFrom(s, a, rest, t);
      actions := [a] + rest;
    } else {
      AckedNow(s, p);
      InvKept(s, Acked(p));
      OneLeads(s, Acked(p));
      actions, t := [Acked(p)], Do(s, Acked(p));
    }
  }

  lemma LeadsFrom(s: State, a: Action, b: seq<Action>, t: State)
    requires Can(s, a) && Leads(Do(s, a), b, t)
    ensures Leads(s, [a] + b, t)
  {
    hide Do;
    hide Can;
    assert ([a] + b)[1..] == b;
  }

  lemma WaitBusy(s: State, p: PmdId)
    requires Inv(s) && s.pc.Wait? && p in s.pmds && s.pmds[p].needReload && s.pmds[p].reload
    ensures Busy(s.pmds[p]) > 0
  {
    OfInv(s, p);
  }

  lemma SameMarked(s: State, t: State, p: PmdId)
    requires ThreadMoved(s, t, p)
    ensures Marked(t) == Marked(s) && p in t.pmds && (p in Marked(s) ==> t.pmds[p].needReload)
  {
    hide Busy;
  }

  lemma AckedNow(s: State, p: PmdId)
    requires s.pc.Wait? && p in s.pmds && s.pmds[p].needReload && !s.pmds[p].reload
    ensures Can(s, Acked(p)) && Do(s, Acked(p)).pc == s.pc && Marked(Do(s, Acked(p))) == Marked(s) - {p}
  {
  }

  // ---------------------------------------------------------------- the main thread

  lemma DeletingStep(s: State) returns (a: Action)
    requires Inv(s) && s.pc.Deleting?
    ensures Can(s, a) && Inv(Do(s, a)) && Nearer(s, Do(s, a))
  {
    var p := s.pc.pmd;
    DeletingBusy(s);
    hide Inv;
    if s.pmds[p].thread == Exited {
      a := FinishDelete;
      InvKept(s, a);
    } else {
      a := ThreadAction(p, s.pmds[p]);
      ThreadStepped(s, p);
      hide Do;
      hide Can;
      hide Busy;
    }
  }

  lemma DeletingBusy(s: State)
    requires Inv(s) && s.pc.Deleting?
    ensures s.pc.pmd in s.pmds && (s.pmds[s.pc.pmd].thread != Exited ==> Busy(s.pmds[s.pc.pmd]) > 0)
  {
    OfInv(s, s.pc.pmd);
  }

  lemma SignalStep(s: State) returns (a: Action)
    requires s.pc.Signal?
    ensures Can(s, a) && Nearer(s, Do(s, a))
  {
    if Marked(s) <= s.pc.sent {
      a := SendsDone;
    } else {
      var p :| p in Marked(s) && p !in s.pc.sent;
      a := Send(p);
      SendMarked(s, p);
      hide ToReconf;
      hide Unserved;
      hide NoTx;
      Smaller(Marked(s) - (s.pc.sent + {p}), Marked(s) - s.pc.sent, p);
      hide Do;
      hide Marked;
    }
  }

  lemma SendMarked(s: State, p: PmdId)
    requires Can(s, Send(p))
    ensures Do(s, Send(p)).pc == s.pc.(sent := s.pc.sent + {p}) && Marked(Do(s, Send(p))) == Marked(s)
  {
    hide Freed;
    hide EmptyCache;
  }

  lemma StaleDid(s: State, p: PmdId)
    requires s.pc.At? && s.pc.stage.RemoveStale? && p in s.pmds
    ensures Can(s, DropStale(p)) && Do(s, DropStale(p)).pmds.Keys == s.pmds.Keys
    ensures Do(s, DropStale(p)).pc == At(RemoveStale(s.pc.stage.done + {p}))
  {
    hide DropStaleFrom;
  }

  lemma MovedDid(s: State, p: PmdId)
    requires s.pc.At? && s.pc.stage.RemoveMoved? && p in s.pmds
    ensures Can(s, DropMoved(p)) && Do(s, DropMoved(p)).pmds.Keys == s.pmds.Keys
    ensures Do(s, DropMoved(p)).pc == At(RemoveMoved(s.pc.stage.done + {p}))
  {
    hide DropMovedFrom;
  }

  lemma SweptNearer(s: State, t: State, p: PmdId)
    requires s.pc.At? && t.pc.At? && t.pmds.Keys == s.pmds.Keys && p in s.pmds
    requires
      || (s.pc.stage.RemoveStale? && p !in s.pc.stage.done && t.pc.stage == RemoveStale(s.pc.stage.done + {p}))
      || (s.pc.stage.RemoveMoved? && p !in s.pc.stage.done && t.pc.stage == RemoveMoved(s.pc.stage.done + {p}))
    ensures Nearer(s, t)
  {
    Smaller(s.pmds.Keys - (s.pc.stage.done + {p}), s.pmds.Keys - s.pc.stage.done, p);
  }

  lemma StaleStep(s: State) returns (a: Action)
    requires s.pc.At? && s.pc.stage.RemoveStale?
    ensures Can(s, a) && Nearer(s, Do(s, a))
  {
    var done := s.pc.stage.done;
    if s.pmds.Keys <= done {
      a := StaleDone;
    } else {
      var p :| p in s.pmds && p !in done;
      a := DropStale(p);
      StaleDid(s, p);
      SweptNearer(s, Do(s, a), p);
      hide Do;
    }
  }

  lemma MovedStep(s: State) returns (a: Action)
    requires s.pc.At? && s.pc.stage.RemoveMoved?
    ensures Can(s, a) && Nearer(s, Do(s, a))
  {
    var done := s.pc.stage.done;
    if s.pmds.Keys <= done {
      a := MovedDone;
    } else {
      var p :| p in s.pmds && p !in done;
      a := DropMoved(p);
      MovedDid(s, p);
      SweptNearer(s, Do(s, a), p);
      hide Do;
    }
  }

  lemma ReconfStep(s: State) returns (a: Action)
    requires s.pc == At(ReconfPorts)
    ensures Can(s, a) && Nearer(s, Do(s, a))
  {
    if pt :| pt in ToReconf(s) {
      a := ReconfPort(pt, false, 0, 0, false);
      Smaller(ToReconf(Do(s, a)), ToReconf(s), pt);
    } else {
      assert forall pt <- s.ports :: s.ports[pt].inDp && s.ports[pt].needReconf ==> pt in ToReconf(s);
      a := PortsDone;
    }
  }

  lemma AddRxqsStep(s: State) returns (a: Action)
    requires s.pc == At(AddRxqs) && ValidTarget(s, s.target)
    ensures Can(s, a) && Nearer(s, Do(s, a))
  {
    if q :| q in Unserved(s) {
      a := AddRxq(q);
      Smaller(Unserved(Do(s, a)), Unserved(s), q);
    } else {
      assert forall q <- s.target :: !(s.target[q] in s.pmds && q in s.pmds[s.target[q]].shared) ==> q in Unserved(s);
      a := RxqsDone;
    }
  }

  lemma AddTxStep(s: State) returns (a: Action)
    requires s.pc == At(AddTx)
    ensures Can(s, a) && Nearer(s, Do(s, a))
  {
    if x :| x in NoTx(s) {
      a := AddTxPort(x.0, x.1);
      assert WantsTx(s, x.0, x.1);
      Smaller(NoTx(Do(s, a)), NoTx(s), x);
    } else {
      forall p, pt | WantsTx(s, p, pt)
        ensures pt in s.pmds[p].tx
      {
        assert pt !in s.pmds[p].tx ==> (p, pt) in NoTx(s);
      }
      a := TxDone;
    }
  }

  /** In any other stage the main thread goes on at once. */
  lemma PlainStep(s: State) returns (a: Action)
    requires s.pc in {At(DeletePmds), At(CreatePmds), At(MarkPorts), At(Schedule), At(Finish)} ||
             (s.pc.Wait? && Marked(s) == {})
    ensures Can(s, a) && Nearer(s, Do(s, a))
  {
    if s.pc.Wait? {
      assert forall p <- s.pmds :: s.pmds[p].needReload ==> p in Marked(s);
      a := WaitsDone;
    } else {
      a := match s.pc.stage
           case DeletePmds => DeletesDone
           case CreatePmds => CreatesDone
           case MarkPorts => MarksDone
           case Schedule => SetSchedule(map[])
           case _ => Destroy;
    }
  }

  /** In every state but the idle one some steps lead nearer to the end. */
  lemma NextSteps(s: State) returns (actions: seq<Action>, t: State)
    requires Inv(s) && s.pc != At(Idle)
    ensures Leads(s, actions, t) && Inv(t) && Nearer(s, t)
  {
    hide Inv;
    hide Do;
    hide Can;
    hide Leads;
    hide Nearer;
    hide Marked;
    if s.pc.Wait? && Marked(s) != {} {
      var p :| p in Marked(s);
      MarkedIs(s, p);
      actions, t := Acknowledge(s, p);
      AcknowledgedNearer(s, t, p);
    } else {
      var a;
      if s.pc.Deleting? {
        a := DeletingStep(s);
      } else if s.pc.Signal? {
        a := SignalStep(s);
      } else if s.pc.At? && s.pc.stage.RemoveStale? {
        a := StaleStep(s);
      } else if s.pc.At? && s.pc.stage.RemoveMoved? {
        a := MovedStep(s);
      } else if s.pc == At(ReconfPorts) {
        a := ReconfStep(s);
      } else if s.pc == At(AddRxqs) {
        TargetValid(s);
        a := AddRxqsStep(s);
      } else if s.pc == At(AddTx) {
        a := AddTxStep(s);
      } else {
        a := PlainStep(s);
      }
      InvKept(s, a);
      OneLeads(s, a);
      actions, t := [a], Do(s, a);
    }
  }

  lemma MarkedIs(s: State, p: PmdId)
    ensures p in Marked(s) <==> p in s.pmds && s.pmds[p].needReload
  {
  }

  lemma AcknowledgedNearer(s: State, t: State, p: PmdId)
    requires s.pc.Wait? && t.pc == s.pc && p in Marked(s) && Marked(t) == Marked(s) - {p}
    ensures Nearer(s, t)
  {
    Smaller(Marked(t), Marked(s), p);
    hide Marked;
  }

  lemma TargetValid(s: State)
    requires Inv(s) && s.pc == At(AddRxqs)
    ensures ValidTarget(s, s.target)
  {
    hide PmdOk;
    hide Disjoint;
    hide CountsOk;
  }

  /** From every state that satisfies the invariant a reconfiguration can be brought to its end. */
  lemma {:induction false} Finishes(s: State) returns (actions: seq<Action>, t: State)
    requires Inv(s)
    ensures Leads(s, actions, t) && Inv(t) && t.pc == At(Idle)
    decreases Ahead(s.pc), ToDo(s)
  {
    hide Inv;
    hide Do;
    hide Can;
    if s.pc == At(Idle) {
      actions, t := [], s;
    } else {
      hide Leads;
      var first, u := NextSteps(s);
      hide ToDo;
      hide Ahead;
      var rest;
      rest, t := Finishes(u);
      LeadsOn(s, first, u, rest, t);
      actions := first + rest;
    }
  }

  /** So it can in every state of every run: the protocol never gets stuck. */
  lemma NeverStuck(run: seq<State>, actions: seq<Action>, i: nat) returns (more: seq<Action>, t: State)
    requires IsRun(run, actions) && i < |run|
    ensures Leads(run[i], more, t) && t.pc == At(Idle)
  {
    hide IsRun;
    hide Inv;
    hide Leads;
    RunOk(run, actions, i);
    more, t := Finishes(run[i]);
  }
}
