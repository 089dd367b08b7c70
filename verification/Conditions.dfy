/** Which stages run, said on the `if` texts and the statuses of the needs. */
module Conditions {
  import opened Sequences
  import opened Strings
  import opened Digraphs
  import opened Pipelines
  import opened Dags
  import opened Schedulers
  import opened Runs
  import opened Ticks
  import opened TickLiveness

  // computeReadyOrSkip and NextReady in api/pkg/engine/scheduler.go: what one poll does to a pending stage, and which
  // stages have run once a run is over. `MayRun` has one case for each of the two texts that are there or not, and does
  // without the scheduler's own function.

  ghost predicate SomeIs(needs: seq<NodeID>, status: Statuses, s: NodeStatus) {
    exists u :: u in needs && u in status && status[u] == s
  }

  /** A stage with this `if` text runs after needs with these statuses, all of them final. */
  ghost predicate MayRun(cond: string, needs: seq<NodeID>, status: Statuses) {
    var always, failure := Contains(cond, "always()"), Contains(cond, "failure()");
    && (needs == [] ==> !failure)
    && (needs != [] && !always && !failure ==> forall u :: u in needs && u in status ==> status[u] == Success)
    && (needs != [] && !always && failure ==> SomeIs(needs, status, Failed) && !SomeIs(needs, status, Canceled))
    && (needs != [] && always && failure ==> SomeIs(needs, status, Failed))
  }

  ghost predicate AllFinal(needs: seq<NodeID>, status: Statuses) {
    forall u :: u in needs ==> u in status && status[u] in {Success, Failed, Skipped, Canceled}
  }

  lemma DecideSays(n: Node, status: Statuses)
    ensures Decide(n, status) ==
            if !AllFinal(n.ins, status) then Pending
            else if MayRun(n.stage.cond, n.ins, status) then Ready
            else Skipped
  {
    assert AllFinished(n, status) <==> AllFinal(n.ins, status);
    forall s: NodeStatus ensures SomeNeed(n, status, s) <==> SomeIs(n.ins, status, s) {}
    NonEmpty(n.ins);
    if AllFinal(n.ins, status) && (forall u :: u in n.ins && u in status ==> status[u] == Success) {
      assert forall s: NodeStatus :: SomeIs(n.ins, status, s) ==> s == Success;
    }
  }

  // ---- One poll ----

  /** No node is both pending and handed out, as in every state of a run and after every restore. */
  ghost predicate Apart(st: State) {
    forall id :: id in st.dispatched && id in st.status ==> st.status[id] != Pending
  }

  lemma CoherentApart(d: Dag, st: State)
    requires WellFormed(d) && Coherent(d, st)
    ensures Covers(d, st) && Apart(st)
  {
  }

  lemma RebuiltApart(d: Dag, rows: Rows)
    requires RowsFor(d, rows)
    ensures Covers(d, Rebuilt(d, rows)) && Apart(Rebuilt(d, rows))
  {
    RebuiltEffect(d, rows);
  }

  lemma VisitApart(d: Dag, st: State, id: NodeID)
    requires id in d.nodes && Covers(d, st) && Apart(st)
    ensures Apart(Visit(d, st, id).0)
  {
    hide Decide;
  }

  lemma {:induction false} SweepApart(d: Dag, st: State, k: nat)
    requires WellFormed(d) && Covers(d, st) && Apart(st) && k <= |d.order|
    ensures Apart(Sweep(d, st, k).0)
  {
    OrderNodes(d);
    hide WellFormed, Visit, Apart;
    if k > 0 {
      SweepApart(d, st, k - 1);
      VisitApart(d, Sweep(d, st, k - 1).0, d.order[k - 1]);
    }
  }

  /** The statuses that a poll meets at the node `id`: the nodes listed before it have their new status already. */
  ghost function Met(d: Dag, st: State, id: NodeID): Statuses
    requires WellFormed(d) && Covers(d, st) && id in d.nodes
  {
    map u | u in d.nodes :: if Position(d, u) < Position(d, id) then Next(d, st).status[u] else st.status[u]
  }

  lemma MetAtVisit(d: Dag, st: State, id: NodeID)
    requires WellFormed(d) && Covers(d, st) && id in d.nodes
    ensures Sweep(d, st, Position(d, id)).0.status == Met(d, st, id)
  {
    var k := Position(d, id);
    forall u | u in d.nodes ensures Sweep(d, st, k).0.status[u] == Met(d, st, id)[u] {
      if Position(d, u) < k {
        NeedBefore(d, st, k, u);
      } else {
        SweepBefore(d, st, Position(d, u), k);
      }
    }
  }

  lemma VisitSays(d: Dag, st: State, id: NodeID)
    requires id in d.nodes && Covers(d, st) && Apart(st)
    ensures var n := d.nodes[id];
            var due := st.status[id] == Pending && AllFinal(n.ins, st.status);
            Visit(d, st, id).0.status[id] ==
               if due && !MayRun(n.stage.cond, n.ins, st.status) then Skipped
               else if !due then st.status[id]
               else if n.stage.kind == "approval" then WaitingApproval
               else Running
  {
    DecideSays(d.nodes[id], st.status);
    hide Decide, MayRun, AllFinal;
  }

  lemma SweptTells(d: Dag, before: State, after: State, ready: seq<NodeID>, id: NodeID)
    requires Swept(d, before, after, ready) && id in before.status && id in after.status && id in d.nodes
    ensures id in ready <==> before.status[id] == Pending && after.status[id] in {Running, WaitingApproval}
  {
  }

  /** What a poll makes of every node: it hands out exactly the pending ones whose needs are all final and let them
      run, approvals to wait and the others to run; it skips those whose needs do not let them run, and leaves the
      rest as it was. */
  lemma PollSays(d: Dag, st: State, id: NodeID)
    requires WellFormed(d) && Covers(d, st) && Apart(st) && id in d.nodes
    ensures var n, met := d.nodes[id], Met(d, st, id);
            var due := st.status[id] == Pending && AllFinal(n.ins, met);
            && (id in ReadyList(d, st) <==> due && MayRun(n.stage.cond, n.ins, met))
            && Next(d, st).status[id] ==
               if due && !MayRun(n.stage.cond, n.ins, met) then Skipped
               else if !due then st.status[id]
               else if n.stage.kind == "approval" then WaitingApproval
               else Running
  {
    OrderNodes(d);
    hide WellFormed, Sweep, Visit, Swept, Apart, Met, MayRun, AllFinal;
    var k := Position(d, id);
    MetAtVisit(d, st, id);
    SweepBefore(d, st, k, k);
    SweepApart(d, st, k);
    SweepAfter(d, st, k, |d.order|);
    SweepSwept(d, st, |d.order|);
    SweptTells(d, st, Next(d, st), ReadyList(d, st), id);
    VisitSays(d, Sweep(d, st, k).0, id);
  }

  /** The list that a poll returns has these nodes in the order of the stages, each once. */
  lemma PollLists(d: Dag, st: State)
    requires WellFormed(d) && Covers(d, st)
    ensures InOrder(d, ReadyList(d, st), |d.order|)
  {
    hide WellFormed, Visit, InOrder;
    OrderNodes(d);
    SweepLists(d, st, |d.order|);
  }

  /** `ready` lists nodes of the first `k` positions, in order. */
  ghost predicate InOrder(d: Dag, ready: seq<NodeID>, k: nat)
    requires WellFormed(d)
  {
    && (forall i :: 0 <= i < |ready| ==> ready[i] in d.nodes && Position(d, ready[i]) < k)
    && forall i, j :: 0 <= i < j < |ready| ==> Position(d, ready[i]) < Position(d, ready[j])
  }

  lemma ListedMore(d: Dag, ready: seq<NodeID>, more: seq<NodeID>, k: nat)
    requires WellFormed(d) && k < |d.order| && InOrder(d, ready, k) && (more == [] || more == [d.order[k]])
    ensures InOrder(d, ready + more, k + 1)
  {
    OrderApart(d, k);
    hide WellFormed;
    assert Position(d, d.order[k]) == k;
  }

  lemma {:induction false} SweepLists(d: Dag, st: State, k: nat)
    requires WellFormed(d) && Covers(d, st) && k <= |d.order|
    ensures InOrder(d, Sweep(d, st, k).1, k)
  {
    hide WellFormed, Visit, InOrder;
    OrderNodes(d);
    if k == 0 {
      NothingListed(d);
    } else {
      SweepLists(d, st, k - 1);
      var (s, ready) := Sweep(d, st, k - 1);
      VisitLists(d, s, d.order[k - 1]);
      ListedMore(d, ready, Visit(d, s, d.order[k - 1]).1, k - 1);
    }
  }

  lemma NothingListed(d: Dag)
    requires WellFormed(d)
    ensures InOrder(d, [], 0)
  {
  }

  lemma VisitLists(d: Dag, st: State, id: NodeID)
    requires id in d.nodes && id in st.status
    ensures Visit(d, st, id).1 == [] || Visit(d, st, id).1 == [id]
  {
    hide Decide;
  }

  // ---- Finished runs ----

  /** Which stages have run when a run is over: those that the outcomes of their needs let run. */
  lemma StagesRun(d: Dag, st: State, id: NodeID)
    requires WellFormed(d) && Coherent(d, st) && id in d.nodes
    requires forall x :: x in d.nodes ==> st.status[x] in {Success, Failed, Skipped, Canceled}
    ensures st.status[id] != Skipped <==> MayRun(d.nodes[id].stage.cond, d.nodes[id].ins, st.status)
  {
    JustifiedAt(d, st, id);
    Neighbours(d, id);
    DecideSays(d.nodes[id], st.status);
    hide WellFormed, Decide, MayRun;
  }

  /** The statuses in which every run with the outcomes `o` ends, one stage in terms of the others. */
  lemma FinalSays(d: Dag, o: Statuses, id: NodeID)
    requires WellFormed(d) && Acyclic(d.Needs()) && OutcomesFor(d, o) && id in d.nodes
    ensures FinalStatuses(d, o)[id] ==
            if MayRun(d.nodes[id].stage.cond, d.nodes[id].ins, FinalStatuses(d, o)) then o[id] else Skipped
  {
    var n, end := d.nodes[id], FinalStatuses(d, o);
    Neighbours(d, id);
    FinalUnfolds(d, o, id, end);
    DecideSays(n, end);
    hide WellFormed, Acyclic, Decide, MayRun;
    forall u | u in n.ins ensures u in end && end[u] in {Success, Failed, Skipped, Canceled} {
      assert end[u] == Final(d, o, u);
    }
  }

  /** The same in production: in a run that a tick finds done a stage has the outcome `o` if the outcomes of its needs
      let it run, and is skipped if not. */
  lemma TicksRun(d: Dag, o: Statuses, events: seq<Event>, decided: Decisions, id: NodeID)
    requires WellFormed(d) && Acyclic(d.Needs()) && OutcomesFor(d, o) && Finishes(d, o, events, decided)
    requires id in d.nodes
    ensures var end := TickState(d, RowsAfter(d, InitialRows(d), events), decided).status;
            && id in end
            && end[id] == if MayRun(d.nodes[id].stage.cond, d.nodes[id].ins, end) then o[id] else Skipped
  {
    hide WellFormed, Acyclic, OutcomesFor, Finishes, TickState, MayRun;
    FinishedIsFinal(d, o, events, decided);
    FinalSays(d, o, id);
  }
}
