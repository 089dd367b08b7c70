/** Polling a run without conditions or failures gives the layers of the sorted graph. */
module Rounds {
  import opened Sequences
  import opened Strings
  import opened Digraphs
  import opened Dags
  import opened Layers
  import opened Schedulers
  import opened Runs

  predicate Unconditional(d: Dag) {
    forall id :: id in d.nodes ==> d.nodes[id].stage.cond == ""
  }

  /** Complete the nodes `ids` one after the other, each with success. */
  function Succeed(st: State, ids: seq<NodeID>): State {
    if ids == [] then st
    else Completed(Succeed(st, ids[..|ids| - 1]), ids[|ids| - 1], Success)
  }

  lemma {:induction false} SucceedEffect(st: State, ids: seq<NodeID>)
    ensures forall id :: id in Succeed(st, ids).status <==> id in st.status || id in ids
    ensures forall id :: id in Succeed(st, ids).status ==>
              Succeed(st, ids).status[id] == if id in ids then Success else st.status[id]
    ensures forall id :: id in Succeed(st, ids).dispatched <==> id in st.dispatched && id !in ids
  {
    if ids != [] {
      SucceedEffect(st, ids[..|ids| - 1]);
      assert ids == ids[..|ids| - 1] + [ids[|ids| - 1]];
    }
  }

  ghost function InLayer(d: Dag, k: nat): set<NodeID>
    requires WellFormed(d) && Acyclic(d.Needs())
  {
    set id | id in d.nodes && Depth(d.Needs(), id) == k
  }

  /** The first `k` layers have succeeded and nothing else has been handed out. */
  ghost function AfterLayers(d: Dag, k: nat): State
    requires WellFormed(d) && Acyclic(d.Needs())
  {
    State(map id | id in d.nodes :: if Depth(d.Needs(), id) < k then Success else Pending, {})
  }

  /** A status map in which exactly the nodes of depth below `k` are final, all of them successful. */
  ghost predicate LayersDone(d: Dag, k: nat, status: Statuses)
    requires WellFormed(d) && Acyclic(d.Needs())
  {
    && status.Keys == d.nodes.Keys
    && forall id :: id in d.nodes ==>
         if Depth(d.Needs(), id) < k then status[id] == Success else !status[id].IsTerminal()
  }

  lemma NoCondition(n: Node)
    requires n.stage.cond == ""
    ensures !Always(n) && !OnFailure(n)
  {
  }

  lemma DecideByLayer(d: Dag, k: nat, id: NodeID, status: Statuses)
    requires WellFormed(d) && Acyclic(d.Needs()) && Unconditional(d) && id in d.nodes
    requires LayersDone(d, k, status)
    ensures Decide(d.nodes[id], status) == if Depth(d.Needs(), id) <= k then Ready else Pending
  {
    var g, n := d.Needs(), d.nodes[id];
    NoCondition(n);
    DepthEdges(g, id);
    assert g[id] == n.ins;
    if Depth(g, id) > k {
      var u :| u in g[id] && u in g && Depth(g, u) == Depth(g, id) - 1;
      assert !Finished(status, u);
    } else {
      forall u | u in n.ins ensures u in status && status[u] == Success {
        assert u in g[id];
      }
    }
  }

  /** In the middle of the poll after `k` layers: `sent` has been handed out so far. */
  ghost predicate Sending(d: Dag, k: nat, sent: seq<NodeID>, st: State)
    requires WellFormed(d) && Acyclic(d.Needs())
  {
    && LayersDone(d, k, st.status)
    && (forall id :: id in st.dispatched <==> id in sent)
    && (forall id :: id in d.nodes && id !in sent && Depth(d.Needs(), id) >= k ==> st.status[id] == Pending)
  }

  lemma SendOne(d: Dag, k: nat, sent: seq<NodeID>, st: State, id: NodeID, s: NodeStatus)
    requires WellFormed(d) && Acyclic(d.Needs()) && id in d.nodes && Depth(d.Needs(), id) == k
    requires Sending(d, k, sent, st) && !s.IsTerminal()
    ensures Sending(d, k, sent + [id], State(st.status[id := s], st.dispatched + {id}))
  {
    hide WellFormed;
  }

  lemma VisitByLayer(d: Dag, k: nat, sent: seq<NodeID>, st: State, id: NodeID)
    requires WellFormed(d) && Acyclic(d.Needs()) && Unconditional(d)
    requires Sending(d, k, sent, st) && id in d.nodes && id !in sent
    ensures Visit(d, st, id).1 == if Depth(d.Needs(), id) == k then [id] else []
    ensures Sending(d, k, sent + Visit(d, st, id).1, Visit(d, st, id).0)
  {
    hide WellFormed, Decide, Unconditional;
    DecideByLayer(d, k, id, st.status);
    if Visit(d, st, id).0 != st {
      SendOne(d, k, sent, st, id, Dispatched(d.nodes[id]));
    }
    assert sent + [] == sent;
  }

  lemma SendingNone(d: Dag, k: nat)
    requires WellFormed(d) && Acyclic(d.Needs())
    ensures Covers(d, AfterLayers(d, k)) && Sending(d, k, [], AfterLayers(d, k))
  {
    hide WellFormed;
  }

  lemma {:induction false} SweepByLayer(d: Dag, k: nat, m: nat)
    requires WellFormed(d) && Acyclic(d.Needs()) && Unconditional(d) && m <= |d.order|
    ensures Sweep(d, AfterLayers(d, k), m).1 == Select(d.order[..m], InLayer(d, k))
    ensures Sending(d, k, Sweep(d, AfterLayers(d, k), m).1, Sweep(d, AfterLayers(d, k), m).0)
  {
    hide WellFormed, Visit, LayersDone, Sending, Depth, Unconditional;
    OrderNodes(d);
    SendingNone(d, k);
    if m > 0 {
      SweepByLayer(d, k, m - 1);
      var (st, ready) := Sweep(d, AfterLayers(d, k), m - 1);
      var id := d.order[m - 1];
      SelectNext(d.order, m - 1, InLayer(d, k));
      VisitByLayer(d, k, ready, st, id);
    }
  }

  /** The state before the k-th poll, when everything handed out earlier has succeeded. */
  ghost function Round(d: Dag, k: nat): (st: State)
    requires WellFormed(d)
    ensures Covers(d, st)
  {
    if k == 0 then Initial(d)
    else
      var st := Round(d, k - 1);
      ReadyNodes(d, st, |d.order|);
      SucceedEffect(Next(d, st), ReadyList(d, st));
      Succeed(Next(d, st), ReadyList(d, st))
  }

  /** Completing all of layer `k` finishes it. */
  lemma SucceedLayer(d: Dag, k: nat, st: State)
    requires WellFormed(d) && Acyclic(d.Needs()) && Sending(d, k, LayerOf(d, k), st)
    ensures Succeed(st, LayerOf(d, k)) == AfterLayers(d, k + 1)
  {
    hide WellFormed, LayerOf, Depth;
    var layer := LayerOf(d, k);
    SucceedEffect(st, layer);
    LayerMembers(d, k);
    var st', goal := Succeed(st, layer), AfterLayers(d, k + 1);
    assert forall id :: id in layer ==> id in d.nodes;
    assert st'.status.Keys == goal.status.Keys;
    forall id | id in d.nodes ensures st'.status[id] == goal.status[id] {
      assert id in layer || id !in layer;
    }
    assert st'.status == goal.status;
    assert st'.dispatched == {};
  }

  lemma RoundStep(d: Dag, k: nat)
    requires WellFormed(d) && Acyclic(d.Needs()) && Unconditional(d)
    ensures ReadyList(d, AfterLayers(d, k)) == LayerOf(d, k)
    ensures Succeed(Next(d, AfterLayers(d, k)), LayerOf(d, k)) == AfterLayers(d, k + 1)
  {
    hide WellFormed, Sending, Succeed, AfterLayers;
    SendingNone(d, k);
    assert d.order[..|d.order|] == d.order;
    SweepByLayer(d, k, |d.order|);
    SucceedLayer(d, k, Next(d, AfterLayers(d, k)));
  }

  lemma NoLayers(d: Dag)
    requires WellFormed(d) && Acyclic(d.Needs())
    ensures AfterLayers(d, 0) == Initial(d)
  {
    hide WellFormed;
    assert AfterLayers(d, 0).status == Initial(d).status;
  }

  /** The k-th poll returns exactly layer `k`, as a sequence. */
  lemma {:induction false} RoundsAreLayers(d: Dag, k: nat)
    requires WellFormed(d) && Acyclic(d.Needs()) && Unconditional(d)
    ensures Round(d, k) == AfterLayers(d, k)
    ensures ReadyList(d, Round(d, k)) == LayerOf(d, k)
  {
    hide WellFormed, AfterLayers, LayerOf, Succeed, Next, ReadyList;
    SendingNone(d, k);
    RoundStep(d, k);
    if k > 0 {
      SendingNone(d, k - 1);
      RoundsAreLayers(d, k - 1);
      RoundStep(d, k - 1);
    } else {
      NoLayers(d);
    }
  }
}
