/** Hardware offload marks: the bookkeeping between megaflows, marks and the flows that carry them, and the queue of
    offload items.

    A megaflow is always served by the same offload thread, so items of one megaflow are finished in the order in
    which they were queued, and items of different megaflows in any order. */
module OffloadMarks {
  import opened Base

  type FlowId = nat
  type Ufid = nat
  type FlowMark = nat

  /** `removed`: taken out of the flow table; `dead` is set a little later.  `mark` None is INVALID_FLOW_MARK. */
  datatype Flow = Flow(ufid: Ufid, mark: Option<FlowMark>, removed: bool, dead: bool)

  datatype Op = Add | Modify | Delete

  datatype Item = Item(op: Op, flow: FlowId)

  ghost predicate Mapped(markOf: map<Ufid, FlowMark>, m: FlowMark) {
    exists u <- markOf :: markOf[u] == m
  }

  /** Some flow of the megaflow is in mark_to_flow. */
  ghost predicate Carried(flows: map<FlowId, Flow>, markToFlow: set<FlowId>, u: Ufid) {
    exists f <- markToFlow :: f in flows && flows[f].ufid == u
  }

  /** Megaflow to mark is one to one; the allocated marks are those of mapped megaflows; a megaflow is mapped as long as
      a flow carries its mark; and every flow in `markToFlow` carries the mark of its megaflow. */
  ghost predicate MarksOk(flows: map<FlowId, Flow>, markToFlow: set<FlowId>, markOf: map<Ufid, FlowMark>,
                          used: set<FlowMark>) {
    && (forall f :: f in markToFlow <==> f in flows && flows[f].mark.Some?)
    && (forall u, v :: u in markOf && v in markOf && markOf[u] == markOf[v] ==> u == v)
    && (forall m :: m in used <==> Mapped(markOf, m))
    && (forall f <- markToFlow :: flows[f].ufid in markOf && flows[f].mark == Some(markOf[flows[f].ufid]))
    && (forall u <- markOf :: Carried(flows, markToFlow, u))
  }

  /** A delete item of the flow at or after position `i`. */
  ghost predicate DeleteFrom(queue: seq<Item>, f: FlowId, i: nat) {
    exists j :: i <= j < |queue| && queue[j] == Item(Delete, f)
  }

  /** The delete item of a flow is queued when the flow is removed, as the last item of the flow; until it is finished
      it undoes whatever the items before it do. */
  ghost predicate QueueOk(flows: map<FlowId, Flow>, queue: seq<Item>) {
    && (forall i :: 0 <= i < |queue| ==> queue[i].flow in flows)
    && (forall i :: 0 <= i < |queue| && queue[i].op == Delete ==> flows[queue[i].flow].removed)
    && (forall i, j :: 0 <= i < j < |queue| && queue[i].flow == queue[j].flow ==> queue[i].op != Delete)
    && (forall f <- flows :: flows[f].dead ==> flows[f].removed)
    && (forall f <- flows :: flows[f].removed && flows[f].mark.Some? ==> DeleteFrom(queue, f, 0))
    && (forall i :: 0 <= i < |queue| && flows[queue[i].flow].removed ==> DeleteFrom(queue, queue[i].flow, i))
  }

  /** No item of the same megaflow comes before item `i`. */
  ghost predicate FirstOfMegaflow(flows: map<FlowId, Flow>, queue: seq<Item>, i: nat)
    requires i < |queue|
  {
    forall j :: 0 <= j < i && queue[i].flow in flows && queue[j].flow in flows ==>
      flows[queue[j].flow].ufid != flows[queue[i].flow].ufid
  }

  /** What putting a flow comes to.  It succeeds for a flow not dead: if offloaded already, if the hardware takes the
      modification; else if its megaflow is mapped, or there is a mark and the hardware takes the flow.  Then the flow
      has the mark of its megaflow.  A modification that fails loses the mark. */
  predicate PutDone(op: Op, was: Flow, markOf: map<Ufid, FlowMark>, newMark: Option<FlowMark>, accepted: bool, ok: bool,
                    now: Flow, markOf': map<Ufid, FlowMark>) {
    && (ok <==> && !was.dead
                && (if op == Modify && was.mark.Some? then accepted
                    else was.ufid in markOf || (newMark.Some? && accepted)))
    && if ok then
         && now.mark.Some? && was.ufid in markOf' && now.mark.value == markOf'[was.ufid]
         && markOf' == if was.ufid in markOf || newMark.None? then markOf else markOf[was.ufid := newMark.value]
       else now.mark == if op == Modify && !was.dead then None else was.mark
  }

  class Offload {
    var flows: map<FlowId, Flow>
    var markToFlow: set<FlowId>
    var markOf: map<Ufid, FlowMark>
    var used: set<FlowMark>
    var queue: seq<Item>

    ghost predicate Valid()
      reads this
    {
      MarksOk(flows, markToFlow, markOf, used) && QueueOk(flows, queue)
    }

    constructor ()
      ensures Valid() && flows == map[] && used == {} && markOf == map[] && queue == []
    {
      flows, markToFlow, markOf, used, queue := map[], {}, map[], {}, [];
    }

    // -------------------------------------------------------------- the threads that queue items

    /** A flow is added: its add item is queued. */
    method QueueAdd(f: FlowId, u: Ufid)
      requires Valid() && f !in flows
      modifies this
      ensures Valid() && flows == old(flows)[f := Flow(u, None, false, false)] && queue == old(queue) + [Item(Add, f)]
      ensures markToFlow == old(markToFlow) && markOf == old(markOf) && used == old(used)
    {
      hide Carried;
      hide Mapped;
      NewFlowOk(flows, markToFlow, markOf, used, f, u);
      QueuedOk(flows, queue, Item(Add, f), Flow(u, None, false, false));
      hide MarksOk;
      hide QueueOk;
      flows := flows[f := Flow(u, None, false, false)];
      queue := queue + [Item(Add, f)];
    }

    /** The actions of a flow still in the flow table change. */
    method QueueModify(f: FlowId)
      requires Valid() && f in flows && !flows[f].removed
      modifies this
      ensures Valid() && flows == old(flows) && queue == old(queue) + [Item(Modify, f)]
      ensures markToFlow == old(markToFlow) && markOf == old(markOf) && used == old(used)
    {
      hide MarksOk;
      QueuedOk(flows, queue, Item(Modify, f), flows[f]);
      hide QueueOk;
      assert flows == flows[f := flows[f]];
      queue := queue + [Item(Modify, f)];
    }

    /** dp_netdev_pmd_remove_flow() takes the flow out of the flow table and queues its delete item. */
    method QueueDelete(f: FlowId)
      requires Valid() && f in flows && !flows[f].removed
      modifies this
      ensures Valid() && flows == old(flows)[f := old(flows)[f].(removed := true)]
      ensures queue == old(queue) + [Item(Delete, f)]
      ensures markToFlow == old(markToFlow) && markOf == old(markOf) && used == old(used)
    {
      MarkKeptOk(flows, markToFlow, markOf, used, f, flows[f].(removed := true));
      QueuedOk(flows, queue, Item(Delete, f), flows[f].(removed := true));
      hide MarksOk;
      hide QueueOk;
      flows := flows[f := flows[f].(removed := true)];
      queue := queue + [Item(Delete, f)];
    }

    /** ... and marks the flow dead; the delete item may already be finished by then. */
    method SetDead(f: FlowId)
      requires Valid() && f in flows && flows[f].removed
      modifies this
      ensures Valid() && flows == old(flows)[f := old(flows)[f].(dead := true)] && queue == old(queue)
      ensures markToFlow == old(markToFlow) && markOf == old(markOf) && used == old(used)
    {
      MarkKeptOk(flows, markToFlow, markOf, used, f, flows[f].(dead := true));
      hide MarksOk;
      flows := flows[f := flows[f].(dead := true)];
    }

    // -------------------------------------------------------------- the offload threads

    /** mark_to_flow_associate(). */
    method Associate(m: FlowMark, f: FlowId)
      requires f in flows
      modifies this`flows, this`markToFlow
      ensures flows == old(flows)[f := old(flows)[f].(mark := Some(m))] && markToFlow == old(markToFlow) + {f}
    {
      markToFlow := markToFlow + {f};
      flows := flows[f := flows[f].(mark := Some(m))];
    }

    /** mark_to_flow_disassociate().  The last flow of a megaflow frees the mark and unmaps the megaflow. */
    method Disassociate(f: FlowId) returns (ok: bool)
      requires MarksOk(flows, markToFlow, markOf, used) && f in flows
      modifies this`flows, this`markToFlow, this`markOf, this`used
      ensures MarksOk(flows, markToFlow, markOf, used)
      ensures ok <==> old(flows)[f].mark.Some?
      ensures flows == old(flows)[f := old(flows)[f].(mark := None)]
      ensures markOf == if ok && !Carried(flows, markToFlow, flows[f].ufid) then old(markOf) - {flows[f].ufid}
              else old(markOf)
    {
      hide Mapped;
      hide Carried;
      if flows[f].mark.None? {
        assert flows == flows[f := flows[f].(mark := None)];
        return false;
      }
      DisassociatedOk(flows, markToFlow, markOf, used, f);
      var mark := flows[f].mark.value;
      markToFlow := markToFlow - {f};
      flows := flows[f := flows[f].(mark := None)];
      ghost var after := flows;
      var hasRef := exists g <- markToFlow :: g in flows && flows[g].mark == Some(mark);
      if !hasRef {
        used := used - {mark};
        markOf := markOf - {flows[f].ufid};
      }
      hide MarksOk;
      return true;
    }

    /** dp_netdev_flow_offload_put().  `fresh` is the mark the pool hands out when asked, None if it has none; `portUp`
        whether the port exists, `hwOk` whether the hardware accepts the flow. */
    method Put(op: Op, f: FlowId, newMark: Option<FlowMark>, portUp: bool, hwOk: bool) returns (ok: bool)
      requires MarksOk(flows, markToFlow, markOf, used) && f in flows && op != Delete
      requires newMark.Some? ==> newMark.value !in used
      modifies this`flows, this`markToFlow, this`markOf, this`used
      ensures MarksOk(flows, markToFlow, markOf, used)
      ensures f in flows && flows == old(flows)[f := old(flows)[f].(mark := flows[f].mark)]
      ensures PutDone(op, old(flows)[f], old(markOf), newMark, portUp && hwOk, ok, flows[f], markOf)
      ensures forall u <- old(markOf) :: u != flows[f].ufid ==> u in markOf && markOf[u] == old(markOf)[u]
    {
      hide Mapped;
      hide Carried;
      hide MarksOk;
      assert flows[f := flows[f].(mark := flows[f].mark)] == flows;
      if flows[f].mark.Some? {
        MarkedIsMapped(flows, markToFlow, markOf, used, f);
      }
      if flows[f].dead {
        return false;
      }
      var modification := op == Modify && flows[f].mark.Some?;
      if !modification {
        if flows[f].ufid in markOf {
          var mark := markOf[flows[f].ufid];
          if flows[f].mark.Some? {
            assert flows[f].mark == Some(mark);   // the assertion in the code
          } else {
            AssociatedOk(flows, markToFlow, markOf, used, f);
            Associate(mark, f);
          }
          return true;
        }
        if newMark.None? {
          return false;
        }
        used := used + {newMark.value};
      }
      if !portUp || !hwOk {
        if modification {
          var _ := Disassociate(f);
        } else {
          used := used - {newMark.value};
          assert used == old(used);
        }
        return false;
      }
      if !modification {
        MappedOk(flows, markToFlow, markOf, old(used), f, newMark.value);
        markOf := markOf[flows[f].ufid := newMark.value];
        Associate(newMark.value, f);
      }
      return true;
    }

    /** dp_offload_flow(): an offload thread finishes item `i`, the first of its megaflow. */
    method Finish(i: nat, newMark: Option<FlowMark>, portUp: bool, hwOk: bool) returns (ok: bool)
      requires Valid() && i < |queue|
      requires FirstOfMegaflow(flows, queue, i)
      requires newMark.Some? ==> newMark.value !in used
      modifies this
      ensures Valid() && queue == RemoveAt(old(queue), i)
      ensures var f := old(queue[i]).flow; f in flows && flows == old(flows)[f := old(flows)[f].(mark := flows[f].mark)]
      ensures var item := old(queue[i]);
              if item.op == Delete then flows[item.flow].mark.None? && (ok <==> old(flows)[item.flow].mark.Some?)
              else PutDone(item.op, old(flows)[item.flow], old(markOf), newMark, portUp && hwOk, ok, flows[item.flow],
                           markOf)
    {
      hide MarksOk;
      hide QueueOk;
      hide RemoveAt;
      QueuedFlow(flows, queue, i);
      var item := queue[i];
      if item.op == Delete {
        ok := Disassociate(item.flow);
      } else {
        ok := Put(item.op, item.flow, newMark, portUp, hwOk);
      }
      FinishedOk(old(flows), queue, i, flows[item.flow].mark);
      queue := RemoveAt(queue, i);
    }
  }

  // ---------------------------------------------------------------- properties of every reachable state

  /** A mark is allocated if and only if some flow carries it, and flows share a mark exactly if they carry one and
      share a megaflow. */
  lemma MarksShared(flows: map<FlowId, Flow>, markToFlow: set<FlowId>, markOf: map<Ufid, FlowMark>, used: set<FlowMark>)
    requires MarksOk(flows, markToFlow, markOf, used)
    ensures forall m :: m in used <==> exists f <- flows :: flows[f].mark == Some(m)
    ensures forall f, g :: f in markToFlow && g in markToFlow ==>
            (flows[f].mark == flows[g].mark <==> flows[f].ufid == flows[g].ufid)
  {
    forall m | m in used
      ensures exists f <- flows :: flows[f].mark == Some(m)
    {
      assert Mapped(markOf, m);
      var u :| u in markOf && markOf[u] == m;
      assert Carried(flows, markToFlow, u);
      var f :| f in markToFlow && f in flows && flows[f].ufid == u;
      assert flows[f].mark == Some(m);
    }
    forall f <- flows | flows[f].mark.Some?
      ensures flows[f].mark.value in used
    {
      assert f in markToFlow;
      assert Mapped(markOf, flows[f].mark.value);
    }
  }

  /** With all items finished, no mark has leaked: only flows still in the flow table carry marks, and the allocated
      marks are the marks of their megaflows. */
  lemma NoLeak(flows: map<FlowId, Flow>, markToFlow: set<FlowId>, markOf: map<Ufid, FlowMark>, used: set<FlowMark>,
               queue: seq<Item>)
    requires MarksOk(flows, markToFlow, markOf, used) && QueueOk(flows, queue) && queue == []
    ensures forall f <- markToFlow :: !flows[f].removed
    ensures forall m <- used :: exists f <- flows :: !flows[f].removed && flows[f].mark == Some(m)
  {
    MarksShared(flows, markToFlow, markOf, used);
    forall f <- flows | flows[f].mark.Some?
      ensures !flows[f].removed
    {
      assert !DeleteFrom(queue, f, 0);
    }
    hide MarksOk;
    hide QueueOk;
    forall m <- used
      ensures exists f <- flows :: !flows[f].removed && flows[f].mark == Some(m)
    {
      var f :| f in flows && flows[f].mark == Some(m);
      assert !flows[f].removed;
    }
  }

  // ---------------------------------------------------------------- single steps on marks

  lemma MarkedIsMapped(flows: map<FlowId, Flow>, markToFlow: set<FlowId>, markOf: map<Ufid, FlowMark>,
                       used: set<FlowMark>, f: FlowId)
    requires MarksOk(flows, markToFlow, markOf, used) && f in flows && flows[f].mark.Some?
    ensures flows[f].ufid in markOf && flows[f].mark == Some(markOf[flows[f].ufid])
  {
  }

  lemma NewFlowOk(flows: map<FlowId, Flow>, markToFlow: set<FlowId>, markOf: map<Ufid, FlowMark>, used: set<FlowMark>,
                  f: FlowId, u: Ufid)
    requires MarksOk(flows, markToFlow, markOf, used) && f !in flows
    ensures MarksOk(flows[f := Flow(u, None, false, false)], markToFlow, markOf, used)
  {
    CarriedKept(flows, flows[f := Flow(u, None, false, false)], markToFlow, markOf);
  }

  lemma MarkKeptOk(flows: map<FlowId, Flow>, markToFlow: set<FlowId>, markOf: map<Ufid, FlowMark>, used: set<FlowMark>,
                   f: FlowId, flow: Flow)
    requires MarksOk(flows, markToFlow, markOf, used) && f in flows && flow.ufid == flows[f].ufid
    requires flow.mark == flows[f].mark
    ensures MarksOk(flows[f := flow], markToFlow, markOf, used)
  {
    CarriedKept(flows, flows[f := flow], markToFlow, markOf);
  }

  lemma CarriedKept(flows: map<FlowId, Flow>, flows': map<FlowId, Flow>, markToFlow: set<FlowId>,
                    markOf: map<Ufid, FlowMark>)
    requires forall u <- markOf :: Carried(flows, markToFlow, u)
    requires flows.Keys <= flows'.Keys && forall f <- flows :: flows'[f].ufid == flows[f].ufid
    ensures forall u <- markOf :: Carried(flows', markToFlow, u)
  {
    forall u <- markOf
      ensures Carried(flows', markToFlow, u)
    {
      var f :| f in markToFlow && f in flows && flows[f].ufid == u;
      assert flows'[f].ufid == u;
    }
  }

  lemma AssociatedOk(flows: map<FlowId, Flow>, markToFlow: set<FlowId>, markOf: map<Ufid, FlowMark>,
                     used: set<FlowMark>, f: FlowId)
    requires MarksOk(flows, markToFlow, markOf, used) && f in flows && flows[f].ufid in markOf
    ensures MarksOk(flows[f := flows[f].(mark := Some(markOf[flows[f].ufid]))], markToFlow + {f}, markOf, used)
  {
    var flows' := flows[f := flows[f].(mark := Some(markOf[flows[f].ufid]))];
    CarriedKept(flows, flows', markToFlow, markOf);
    forall u <- markOf
      ensures Carried(flows', markToFlow + {f}, u)
    {
      var g :| g in markToFlow && g in flows' && flows'[g].ufid == u;
      assert g in markToFlow + {f};
    }
    hide Mapped;
    hide Carried;
  }

  lemma MappedOk(flows: map<FlowId, Flow>, markToFlow: set<FlowId>, markOf: map<Ufid, FlowMark>, used: set<FlowMark>,
                 f: FlowId, m: FlowMark)
    requires MarksOk(flows, markToFlow, markOf, used) && f in flows && flows[f].ufid !in markOf && m !in used
    ensures MarksOk(flows[f := flows[f].(mark := Some(m))], markToFlow + {f}, markOf[flows[f].ufid := m], used + {m})
  {
    var u := flows[f].ufid;
    var flows' := flows[f := flows[f].(mark := Some(m))];
    var markOf' := markOf[u := m];
    CarriedKept(flows, flows', markToFlow, markOf);
    forall v <- markOf'
      ensures Carried(flows', markToFlow + {f}, v)
    {
      var g :| g in markToFlow + {f} && g in flows' && flows'[g].ufid == v;
    }
    hide Carried;
    forall n
      ensures n in used + {m} <==> Mapped(markOf', n)
    {
      MappedUpdate(markOf, u, m, n);
    }
    forall v | v in markOf
      ensures markOf[v] != m
    {
      assert Mapped(markOf, markOf[v]);
    }
    hide Mapped;
  }

  lemma MappedUpdate(markOf: map<Ufid, FlowMark>, u: Ufid, m: FlowMark, n: FlowMark)
    requires u !in markOf
    ensures Mapped(markOf[u := m], n) <==> n == m || Mapped(markOf, n)
  {
    if n == m {
      assert markOf[u := m][u] == n;
    } else if Mapped(markOf, n) {
      var v :| v in markOf && markOf[v] == n;
      assert markOf[u := m][v] == n;
    }
  }

  lemma DisassociatedOk(flows: map<FlowId, Flow>, markToFlow: set<FlowId>, markOf: map<Ufid, FlowMark>,
                        used: set<FlowMark>, f: FlowId)
    requires MarksOk(flows, markToFlow, markOf, used) && f in flows && flows[f].mark.Some?
    ensures var flows' := flows[f := flows[f].(mark := None)];
            var rest := markToFlow - {f};
            var u := flows[f].ufid;
            && (Carried(flows', rest, u) <==> exists g <- rest :: g in flows' && flows'[g].mark == flows[f].mark)
            && if Carried(flows', rest, u) then MarksOk(flows', rest, markOf, used)
               else MarksOk(flows', rest, markOf - {u}, used - {flows[f].mark.value})
  {
    var flows' := flows[f := flows[f].(mark := None)];
    var rest := markToFlow - {f};
    var u := flows[f].ufid;
    assert f in markToFlow;
    forall v <- markOf | v != u
      ensures Carried(flows', rest, v)
    {
      var g :| g in markToFlow && g in flows && flows[g].ufid == v;
      assert g in rest && flows'[g].ufid == v;
    }
    forall g <- rest
      ensures g in flows' && (flows'[g].mark == flows[f].mark <==> flows'[g].ufid == u)
    {
    }
    var m := flows[f].mark.value;
    forall n
      ensures n in used - {m} <==> Mapped(markOf - {u}, n)
    {
      if n in used - {m} {
        assert Mapped(markOf, n);
        var v :| v in markOf && markOf[v] == n;
        assert v in markOf - {u} && (markOf - {u})[v] == n;
      }
      if Mapped(markOf - {u}, n) {
        var v :| v in markOf - {u} && (markOf - {u})[v] == n;
        assert v in markOf && markOf[v] == n;
        assert Mapped(markOf, n);
      }
    }
    hide Mapped;
  }

  // ---------------------------------------------------------------- single steps on the queue

  /** An item is queued for a flow not removed before; only a delete item removes it. */
  lemma QueuedOk(flows: map<FlowId, Flow>, queue: seq<Item>, item: Item, flow: Flow)
    requires QueueOk(flows, queue)
    requires item.flow in flows ==> !flows[item.flow].removed && flow == flows[item.flow].(removed := item.op == Delete)
    requires item.flow !in flows ==> item.op != Delete && flow.mark.None? && !flow.removed && !flow.dead
    ensures QueueOk(flows[item.flow := flow], queue + [item])
  {
    var flows', queue' := flows[item.flow := flow], queue + [item];
    forall f, i: nat | DeleteFrom(queue, f, i)
      ensures DeleteFrom(queue', f, i)
    {
      var j :| i <= j < |queue| && queue[j] == Item(Delete, f);
      assert queue'[j] == Item(Delete, f);
    }
    if item.op == Delete {
      forall i: nat | i <= |queue|
        ensures DeleteFrom(queue', item.flow, i)
      {
        assert queue'[|queue|] == Item(Delete, item.flow);
      }
    }
    hide DeleteFrom;
    assert forall i :: 0 <= i < |queue'| ==> queue'[i] == if i < |queue| then queue[i] else item;
  }

  /** The item at `i`, the first of its flow, is finished, leaving the flow with mark `m`. */
  lemma FinishedOk(flows: map<FlowId, Flow>, queue: seq<Item>, i: nat, m: Option<FlowMark>)
    requires QueueOk(flows, queue) && i < |queue| && forall j :: 0 <= j < i ==> queue[j].flow != queue[i].flow
    requires queue[i].op == Delete ==> m.None?
    ensures QueueOk(flows[queue[i].flow := flows[queue[i].flow].(mark := m)], RemoveAt(queue, i))
  {
    hide DeleteFrom;
    var queue' := RemoveAt(queue, i);
    forall g <- flows | flows[g].removed && (if g == queue[i].flow then m.Some? else flows[g].mark.Some?)
      ensures DeleteFrom(queue', g, 0)
    {
      DeleteKept(queue, i, g, if g == queue[i].flow then i else 0);
    }
    forall k | 0 <= k < |queue'| && flows[queue'[k].flow].removed
      ensures DeleteFrom(queue', queue'[k].flow, k)
    {
      DeleteKept(queue, i, queue'[k].flow, if k < i then k else k + 1);
    }
  }

  lemma QueuedFlow(flows: map<FlowId, Flow>, queue: seq<Item>, i: nat)
    requires QueueOk(flows, queue) && i < |queue| && FirstOfMegaflow(flows, queue, i)
    ensures queue[i].flow in flows && forall j :: 0 <= j < i ==> queue[j].flow != queue[i].flow
  {
  }

  lemma DeleteKept(queue: seq<Item>, i: nat, g: FlowId, k: nat)
    requires i < |queue| && DeleteFrom(queue, g, k) && queue[i] != Item(Delete, g)
    ensures DeleteFrom(RemoveAt(queue, i), g, if k <= i then k else k - 1)
    ensures DeleteFrom(RemoveAt(queue, i), g, 0)
  {
    var j :| k <= j < |queue| && queue[j] == Item(Delete, g);
    assert RemoveAt(queue, i)[if j < i then j else j - 1] == Item(Delete, g);
  }
}
