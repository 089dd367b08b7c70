/** Whole runs of the scheduler: every interleaving of NextReady and Complete
    (api/pkg/engine/scheduler.go) ends, and ends the same way. */
module Runs {
  import opened Sequences
  import opened Strings
  import opened Digraphs
  import opened Pipelines
  import opened Dags
  import opened Layers
  import opened Schedulers

  // ---- Runs ----

  datatype Action = Poll | Finish(id: NodeID, result: NodeStatus)

  /** Only nodes that were handed out are completed, each with one of the three results. */
  predicate Legal(st: State, a: Action) {
    a.Finish? ==> a.id in st.dispatched && a.result in {Success, Failed, Canceled}
  }

  function Step(d: Dag, st: State, a: Action): (r: State)
    requires WellFormed(d) && Covers(d, st) && st.dispatched <= d.nodes.Keys && Legal(st, a)
    ensures Covers(d, r)
  {
    match a
    case Poll => Next(d, st)
    case Finish(id, result) => Completed(st, id, result)
  }

  ghost predicate LegalRun(d: Dag, st: State, acts: seq<Action>)
    requires WellFormed(d) && Coherent(d, st)
    decreases |acts|
  {
    acts == [] || (Legal(st, acts[0]) && (StepCoherent(d, st, acts[0]); LegalRun(d, Step(d, st, acts[0]), acts[1..])))
  }

  ghost function Exec(d: Dag, st: State, acts: seq<Action>): (r: State)
    requires WellFormed(d) && Coherent(d, st) && LegalRun(d, st, acts)
    ensures Coherent(d, r)
    decreases |acts|
  {
    if acts == [] then st
    else
      StepCoherent(d, st, acts[0]);
      Exec(d, Step(d, st, acts[0]), acts[1..])
  }

  /** Every completion reports the outcome that `o` fixes for its node. */
  predicate Follows(acts: seq<Action>, o: Statuses) {
    forall a :: a in acts && a.Finish? ==> a.id in o && a.result == o[a.id]
  }

  // ---- What every reachable state satisfies ----

  /** The status of a node is justified by the statuses of its needs, which are all final unless it is pending. */
  ghost predicate Justified(n: Node, status: Statuses)
    requires n.id in status
  {
    match status[n.id]
    case Pending => true
    case Ready => false
    case Skipped => AllFinished(n, status) && Decide(n, status) == Skipped
    case Running => AllFinished(n, status) && Decide(n, status) == Ready && !IsApproval(n)
    case WaitingApproval => AllFinished(n, status) && Decide(n, status) == Ready && IsApproval(n)
    case _ => AllFinished(n, status) && Decide(n, status) == Ready
  }

  ghost predicate Coherent(d: Dag, st: State)
    requires WellFormed(d)
  {
    && Covers(d, st)
    && (forall id :: id in st.dispatched <==> id in d.nodes && st.status[id] in {Running, WaitingApproval})
    && forall id {:trigger Justified(d.nodes[id], st.status)} :: id in d.nodes ==> Justified(d.nodes[id], st.status)
  }

  lemma JustifiedAt(d: Dag, st: State, id: NodeID)
    requires WellFormed(d) && Coherent(d, st) && id in d.nodes
    ensures d.nodes[id].id == id && id in st.status && Justified(d.nodes[id], st.status)
  {
  }

  lemma InitialCoherent(d: Dag)
    requires WellFormed(d)
    ensures Coherent(d, Initial(d))
  {
  }

  ghost predicate AgreeOn(n: Node, s: Statuses, t: Statuses) {
    forall u :: u in n.ins ==> (u in s <==> u in t) && (u in s ==> s[u] == t[u])
  }

  /** A decision looks only at the statuses of the needs. */
  lemma DecideLocal(n: Node, s: Statuses, t: Statuses)
    requires AgreeOn(n, s, t)
    ensures AllFinished(n, s) == AllFinished(n, t) && Decide(n, s) == Decide(n, t)
  {
    forall x: NodeStatus ensures SomeNeed(n, s, x) == SomeNeed(n, t, x) {
      if SomeNeed(n, s, x) {
        var u :| u in n.ins && u in s && s[u] == x;
        assert t[u] == x;
      }
      if SomeNeed(n, t, x) {
        var u :| u in n.ins && u in t && t[u] == x;
        assert s[u] == x;
      }
    }
  }

  /** Changing the status of a node that is not final disturbs no other node's justification. */
  lemma ChangeCoherent(d: Dag, st: State, id: NodeID, s: NodeStatus)
    requires WellFormed(d) && Coherent(d, st) && id in d.nodes && !st.status[id].IsTerminal()
    ensures forall x :: x in d.nodes && x != id ==> Justified(d.nodes[x], st.status[id := s])
    ensures AgreeOn(d.nodes[id], st.status, st.status[id := s])
  {
    Neighbours(d, id);
    forall x | x in d.nodes && x != id ensures Justified(d.nodes[x], st.status[id := s]) {
      var n := d.nodes[x];
      if st.status[x] != Pending {
        assert Justified(n, st.status);
        assert AllFinished(n, st.status);
        assert id !in n.ins;
        DecideLocal(n, st.status, st.status[id := s]);
      }
    }
  }

  /** A status that is not pending survives NextReady unchanged. */
  ghost predicate Grows(st: State, st': State) {
    && st.status.Keys == st'.status.Keys
    && forall id :: id in st.status && st.status[id] != Pending ==> st'.status[id] == st.status[id]
  }

  lemma VisitCoherent(d: Dag, st: State, id: NodeID)
    requires WellFormed(d) && Coherent(d, st) && id in d.nodes
    ensures Coherent(d, Visit(d, st, id).0) && Grows(st, Visit(d, st, id).0)
  {
    var st' := Visit(d, st, id).0;
    if st' != st {
      var n := d.nodes[id];
      ChangeCoherent(d, st, id, st'.status[id]);
      DecideLocal(n, st.status, st'.status);
      assert Decide(n, st.status) != Pending ==> AllFinished(n, st.status);
      assert Justified(n, st'.status);
    }
  }

  lemma {:induction false} SweepCoherent(d: Dag, st: State, k: nat)
    requires WellFormed(d) && Coherent(d, st) && k <= |d.order|
    ensures Coherent(d, Sweep(d, st, k).0) && Grows(st, Sweep(d, st, k).0)
  {
    if k > 0 {
      SweepCoherent(d, st, k - 1);
      VisitCoherent(d, Sweep(d, st, k - 1).0, d.order[k - 1]);
    }
  }

  /** Every call of a legal run keeps the state coherent, and a final status is never changed. */
  lemma StepCoherent(d: Dag, st: State, a: Action)
    requires WellFormed(d) && Coherent(d, st) && Legal(st, a)
    ensures Coherent(d, Step(d, st, a))
    ensures forall id :: id in st.status && st.status[id].IsTerminal() ==> Step(d, st, a).status[id] == st.status[id]
  {
    match a
    case Poll => SweepCoherent(d, st, |d.order|);
    case Finish(id, result) =>
      var st' := Completed(st, id, result);
      ChangeCoherent(d, st, id, result);
      DecideLocal(d.nodes[id], st.status, st'.status);
      assert Justified(d.nodes[id], st.status);
      assert Justified(d.nodes[id], st'.status);
  }

  // ---- Confluence ----

  predicate OutcomesFor(d: Dag, o: Statuses) {
    forall id :: id in d.nodes ==> id in o && o[id] in {Success, Failed, Canceled}
  }

  /** The status every run must give to `id` when each node that runs ends as `o` says. */
  ghost function Final(d: Dag, o: Statuses, id: NodeID): NodeStatus
    requires WellFormed(d) && Acyclic(d.Needs()) && OutcomesFor(d, o) && id in d.nodes
    decreases Below(d.Needs(), id)
  {
    var n := d.nodes[id];
    Neighbours(d, id);
    var needs := map u | u in n.ins :: (BelowShrinks(d.Needs(), id, u); Final(d, o, u));
    if Decide(n, needs) == Skipped then Skipped else o[id]
  }

  lemma FinalUnfolds(d: Dag, o: Statuses, id: NodeID, status: Statuses)
    requires WellFormed(d) && Acyclic(d.Needs()) && OutcomesFor(d, o) && id in d.nodes
    requires forall u :: u in d.nodes[id].ins ==> u in d.nodes && u in status && status[u] == Final(d, o, u)
    ensures Final(d, o, id) == if Decide(d.nodes[id], status) == Skipped then Skipped else o[id]
  {
    var n := d.nodes[id];
    forall u | u in n.ins ensures Edge(d.Needs(), id, u) {}
    forall u | u in n.ins { BelowShrinks(d.Needs(), id, u); }
    var needs := map u | u in n.ins :: Final(d, o, u);
    DecideLocal(n, needs, status);
  }

  ghost predicate Faithful(st: State, o: Statuses) {
    forall id :: id in st.status && st.status[id] in {Success, Failed, Canceled} ==>
      id in o && st.status[id] == o[id]
  }

  lemma VisitFaithful(d: Dag, st: State, o: Statuses, id: NodeID)
    requires WellFormed(d) && Covers(d, st) && Faithful(st, o) && id in d.nodes
    ensures Faithful(Visit(d, st, id).0, o)
  {
  }

  lemma {:induction false} SweepFaithful(d: Dag, st: State, o: Statuses, k: nat)
    requires WellFormed(d) && Covers(d, st) && Faithful(st, o) && k <= |d.order|
    ensures Faithful(Sweep(d, st, k).0, o)
  {
    if k > 0 {
      SweepFaithful(d, st, o, k - 1);
      VisitFaithful(d, Sweep(d, st, k - 1).0, o, d.order[k - 1]);
    }
  }

  lemma {:induction false} ExecFaithful(d: Dag, st: State, acts: seq<Action>, o: Statuses)
    requires WellFormed(d) && Coherent(d, st) && LegalRun(d, st, acts)
    requires Faithful(st, o) && Follows(acts, o)
    ensures Faithful(Exec(d, st, acts), o)
    decreases |acts|
  {
    if acts != [] {
      StepCoherent(d, st, acts[0]);
      SweepFaithful(d, st, o, |d.order|);
      assert Faithful(Step(d, st, acts[0]), o);
      ExecFaithful(d, Step(d, st, acts[0]), acts[1..], o);
    }
  }

  /** A final status never depends on the interleaving: it is the one Final computes. */
  lemma {:induction false} TerminalIsFinal(d: Dag, o: Statuses, st: State, id: NodeID)
    requires WellFormed(d) && Acyclic(d.Needs()) && OutcomesFor(d, o)
    requires Coherent(d, st) && Faithful(st, o) && id in d.nodes && st.status[id].IsTerminal()
    ensures st.status[id] == Final(d, o, id)
    decreases Depth(d.Needs(), id)
  {
    var n := d.nodes[id];
    DepthEdges(d.Needs(), id);
    assert Justified(n, st.status);
    forall u | u in n.ins ensures u in d.nodes && u in st.status && st.status[u] == Final(d, o, u) {
      Neighbours(d, id);
      assert u in d.Needs()[id];
      TerminalIsFinal(d, o, st, u);
    }
    FinalUnfolds(d, o, id, st.status);
  }

  ghost function FinalStatuses(d: Dag, o: Statuses): Statuses
    requires WellFormed(d) && Acyclic(d.Needs()) && OutcomesFor(d, o)
  {
    map id | id in d.nodes :: Final(d, o, id)
  }

  lemma FinalStates(d: Dag, o: Statuses, st: State)
    requires WellFormed(d) && Acyclic(d.Needs()) && OutcomesFor(d, o)
    requires Coherent(d, st) && Faithful(st, o)
    ensures forall id :: id in d.nodes && st.status[id].IsTerminal() ==> st.status[id] == Final(d, o, id)
    ensures AllDone(st.status) ==> st.status == FinalStatuses(d, o)
  {
    forall id | id in d.nodes && st.status[id].IsTerminal() ensures st.status[id] == Final(d, o, id) {
      TerminalIsFinal(d, o, st, id);
    }
  }

  /** Two legal runs, in any order of calls and completions, agree on every status that is final in
      both; once all is final they agree on the whole map, FinalStatuses, and on the outcome. */
  lemma Confluence(d: Dag, o: Statuses, acts: seq<Action>, acts': seq<Action>)
    requires WellFormed(d) && Acyclic(d.Needs()) && OutcomesFor(d, o)
    requires LegalRun(d, Initial(d), acts) && Follows(acts, o)
    requires LegalRun(d, Initial(d), acts') && Follows(acts', o)
    ensures var s, s' := Exec(d, Initial(d), acts).status, Exec(d, Initial(d), acts').status;
            && (forall id :: id in d.nodes && s[id].IsTerminal() && s'[id].IsTerminal() ==> s[id] == s'[id])
            && (AllDone(s) && AllDone(s') ==> s == s' == FinalStatuses(d, o) && OutcomeOf(s) == OutcomeOf(s'))
  {
    hide WellFormed, Final, Follows;
    ExecFaithful(d, Initial(d), acts, o);
    FinalStates(d, o, Exec(d, Initial(d), acts));
    ExecFaithful(d, Initial(d), acts', o);
    FinalStates(d, o, Exec(d, Initial(d), acts'));
  }

  // ---- Where a sweep leaves each node ----

  /** A visit touches no other node. */
  lemma VisitLocal(d: Dag, st: State, id: NodeID, x: NodeID)
    requires WellFormed(d) && Covers(d, st) && id in d.nodes && x in d.nodes && x != id
    ensures Visit(d, st, id).0.status[x] == st.status[x]
  {
  }

  lemma OrderApart(d: Dag, k: nat)
    requires WellFormed(d) && k < |d.order|
    ensures forall i :: 0 <= i < |d.order| ==> d.order[i] in d.nodes && (i != k ==> d.order[i] != d.order[k])
  {
    OrderNodes(d);
  }

  /** A sweep touches a node only at its own position in Order. */
  lemma {:induction false} SweepBefore(d: Dag, st: State, k: nat, m: nat)
    requires WellFormed(d) && Covers(d, st) && m <= k < |d.order|
    ensures Sweep(d, st, m).0.status[d.order[k]] == st.status[d.order[k]]
    decreases m
  {
    OrderNodes(d);
    hide WellFormed, Visit;
    if m > 0 {
      SweepBefore(d, st, k, m - 1);
      VisitLocal(d, Sweep(d, st, m - 1).0, d.order[m - 1], d.order[k]);
    }
  }

  lemma SweepOnward(d: Dag, st: State, k: nat, m: nat)
    requires WellFormed(d) && Covers(d, st) && k < m < |d.order|
    ensures Sweep(d, st, m + 1).0.status[d.order[k]] == Sweep(d, st, m).0.status[d.order[k]]
  {
    OrderApart(d, k);
    hide WellFormed, Visit;
    VisitLocal(d, Sweep(d, st, m).0, d.order[m], d.order[k]);
  }

  lemma SweepNow(d: Dag, st: State, k: nat)
    requires WellFormed(d) && Covers(d, st) && k < |d.order|
    ensures Sweep(d, st, k + 1).0 == Visit(d, Sweep(d, st, k).0, d.order[k]).0
  {
    OrderNodes(d);
    hide WellFormed, Visit;
  }

  lemma {:induction false} SweepAfter(d: Dag, st: State, k: nat, m: nat)
    requires WellFormed(d) && Covers(d, st) && k < m <= |d.order|
    ensures Sweep(d, st, m).0.status[d.order[k]] == Visit(d, Sweep(d, st, k).0, d.order[k]).0.status[d.order[k]]
    decreases m
  {
    hide *;
    if m == k + 1 {
      SweepNow(d, st, k);
    } else {
      SweepAfter(d, st, k, m - 1);
      SweepOnward(d, st, k, m - 1);
    }
  }

  /** The position of a node in Order. */
  ghost function Position(d: Dag, id: NodeID): (k: nat)
    requires WellFormed(d) && id in d.nodes
    ensures k < |d.order| && d.order[k] == id
  {
    assert id in d.order;
    var k :| 0 <= k < |d.order| && d.order[k] == id;
    k
  }

  /** A pending node whose needs are all final does not stay pending. */
  lemma SweepSettles(d: Dag, st: State, id: NodeID)
    requires WellFormed(d) && Coherent(d, st) && id in d.nodes
    requires st.status[id] == Pending && AllFinished(d.nodes[id], st.status)
    ensures Next(d, st).status[id] != Pending
  {
    var k := Position(d, id);
    SweepAfter(d, st, k, |d.order|);
    SweepCoherent(d, st, k);
    VisitExhausts(d, Sweep(d, st, k).0, id);
    assert AllFinished(d.nodes[id], Sweep(d, st, k).0.status);
  }

  /** Order lists every stage after the stages it needs. */
  ghost predicate NeedsFirst(d: Dag) {
    forall i, j ::
      (0 <= i < |d.order| && 0 <= j < |d.order| && d.order[i] in d.nodes && d.order[j] in d.nodes[d.order[i]].ins)
      ==> j < i
  }

  /** When a sweep comes to a node, the needs listed before it already have their new status. */
  lemma NeedBefore(d: Dag, st: State, k: nat, u: NodeID)
    requires WellFormed(d) && Covers(d, st) && k < |d.order| && u in d.nodes && Position(d, u) < k
    ensures Sweep(d, st, k).0.status[u] == Next(d, st).status[u]
  {
    SweepAfter(d, st, Position(d, u), |d.order|);
    SweepAfter(d, st, Position(d, u), k);
  }

  /** Some statuses of its needs make the node skip (see NeverSkips, and SkippingOutcomes of TickLiveness). */
  predicate CanSkip(n: Node) {
    if n.ins == [] then OnFailure(n) else !Always(n) || OnFailure(n)
  }

  /** The stage at position `i` needs the one at the later position `j`. */
  ghost predicate LateNeed(d: Dag, i: nat, j: nat) {
    i < j < |d.order| && d.order[i] in d.nodes && d.order[j] in d.nodes && d.order[j] in d.nodes[d.order[i]].ins
  }

  /** Every need that can be skipped is listed before the stages that need it. */
  ghost predicate SkipOrdered(d: Dag) {
    forall i: nat, j: nat :: LateNeed(d, i, j) ==> !CanSkip(d.nodes[d.order[j]])
  }

  lemma NeedsFirstSkipOrdered(d: Dag)
    requires NeedsFirst(d)
    ensures SkipOrdered(d)
  {
  }

  lemma NeverSkips(n: Node, status: Statuses)
    requires !CanSkip(n)
    ensures Decide(n, status) != Skipped
  {
  }

  /** A node that a sweep has made final was final before, or it was skipped. */
  lemma NewlyFinal(d: Dag, st: State, id: NodeID)
    requires WellFormed(d) && Coherent(d, st) && id in d.nodes && Finished(Next(d, st).status, id)
    ensures st.status[id].IsTerminal() || (CanSkip(d.nodes[id]) && Next(d, st).status[id] == Skipped)
  {
    SweepCoherent(d, st, |d.order|);
    JustifiedAt(d, st, id);
    JustifiedAt(d, Next(d, st), id);
    SettledBy(d, st, id);
    hide WellFormed, Coherent, Decide, AllFinished, CanSkip, Next;
    if Next(d, st).status[id] == Skipped && !CanSkip(d.nodes[id]) {
      NeverSkips(d.nodes[id], Next(d, st).status);
    }
  }

  /** A poll leaves a pending node pending, skips it, or hands it out. */
  lemma SettledBy(d: Dag, st: State, id: NodeID)
    requires WellFormed(d) && Coherent(d, st) && id in d.nodes
    ensures var s := Next(d, st).status[id];
            s == st.status[id] || (st.status[id] == Pending && (s == Skipped || s == Dispatched(d.nodes[id])))
  {
    var k := Position(d, id);
    SweepAfter(d, st, k, |d.order|);
    SweepBefore(d, st, k, k);
    hide WellFormed, Coherent, Decide, Sweep;
  }

  /** What is final after a sweep is already final when the sweep comes to a stage that needs it, if needs that
      can be skipped are listed first. */
  lemma NeedSettled(d: Dag, st: State, k: nat, u: NodeID)
    requires WellFormed(d) && Coherent(d, st) && SkipOrdered(d) && k < |d.order|
    requires u in d.nodes[d.order[k]].ins && Finished(Next(d, st).status, u)
    ensures Finished(Sweep(d, st, k).0.status, u)
  {
    OrderNodes(d);
    Neighbours(d, d.order[k]);
    assert Covers(d, st);
    hide WellFormed, Coherent, SkipOrdered, CanSkip, Position, Next, Sweep, Grows;
    SweepCoherent(d, st, k);
    NewlyFinal(d, st, u);
    if st.status[u].IsTerminal() {
      GrownFinished(st, Sweep(d, st, k).0, u);
    } else {
      SkipListed(d, k, u);
      NeedBefore(d, st, k, u);
    }
  }

  lemma GrownFinished(st: State, st': State, id: NodeID)
    requires Grows(st, st') && Finished(st.status, id)
    ensures Finished(st'.status, id)
  {
  }

  lemma SkipListed(d: Dag, k: nat, u: NodeID)
    requires WellFormed(d) && SkipOrdered(d) && k < |d.order| && d.order[k] in d.nodes
    requires u in d.nodes && u in d.nodes[d.order[k]].ins && CanSkip(d.nodes[u])
    ensures Position(d, u) < k
  {
    assert Position(d, u) == k || Position(d, u) < k || LateNeed(d, k, Position(d, u));
  }

  /** If needs that can be skipped are listed first, one call leaves no pending node whose needs are all final. */
  lemma SweepExhausts(d: Dag, st: State, id: NodeID)
    requires WellFormed(d) && Coherent(d, st) && SkipOrdered(d) && id in d.nodes
    ensures Next(d, st).status[id] == Pending ==> !AllFinished(d.nodes[id], Next(d, st).status)
  {
    var k := Position(d, id);
    SweepAfter(d, st, k, |d.order|);
    SweepCoherent(d, st, k);
    VisitExhausts(d, Sweep(d, st, k).0, id);
    hide WellFormed, Coherent, SkipOrdered, Visit, Finished, Next, Position;
    forall u | u in d.nodes[id].ins && Finished(Next(d, st).status, u)
      ensures Finished(Sweep(d, st, k).0.status, u)
    {
      NeedSettled(d, st, k, u);
    }
  }

  lemma VisitExhausts(d: Dag, st: State, id: NodeID)
    requires WellFormed(d) && Coherent(d, st) && id in d.nodes
    ensures Visit(d, st, id).0.status[id] == Pending ==> !AllFinished(d.nodes[id], st.status)
  {
  }

  // ---- Progress ----

  ghost function PendingNodes(st: State): set<NodeID> {
    set id | id in st.status && st.status[id] == Pending
  }

  /** What is left to do: a pending node has still to be settled and, if handed out, completed. */
  ghost function Remaining(st: State): nat {
    2 * |PendingNodes(st)| + |st.dispatched|
  }

  /** Every change leaves less to do. */
  ghost predicate Lessens(before: State, after: State) {
    Remaining(after) <= Remaining(before) && (after != before ==> Remaining(after) < Remaining(before))
  }

  lemma LessensSame(st: State)
    ensures Lessens(st, st)
  {
  }

  lemma LessensOn(a: State, b: State, c: State)
    requires Lessens(a, b) && Lessens(b, c)
    ensures Lessens(a, c)
  {
    hide Remaining;
  }

  lemma VisitRemaining(d: Dag, st: State, id: NodeID)
    requires WellFormed(d) && Coherent(d, st) && id in d.nodes
    ensures Lessens(st, Visit(d, st, id).0)
  {
    var st' := Visit(d, st, id).0;
    if st' != st {
      assert PendingNodes(st') == PendingNodes(st) - {id};
    }
  }

  lemma SweepStart(d: Dag, st: State)
    requires WellFormed(d) && Coherent(d, st)
    ensures Covers(d, st) && forall id :: id in d.order ==> id in d.nodes
    ensures Sweep(d, st, 0).0 == st
  {
    OrderNodes(d);
    hide WellFormed;
  }

  lemma {:induction false} SweepRemaining(d: Dag, st: State, k: nat)
    requires WellFormed(d) && Coherent(d, st) && k <= |d.order|
    ensures Lessens(st, Sweep(d, st, k).0)
  {
    hide *;
    SweepStart(d, st);
    if k == 0 {
      LessensSame(st);
    } else {
      SweepRemaining(d, st, k - 1);
      SweepCoherent(d, st, k - 1);
      VisitRemaining(d, Sweep(d, st, k - 1).0, d.order[k - 1]);
      SweepNow(d, st, k - 1);
      LessensOn(st, Sweep(d, st, k - 1).0, Sweep(d, st, k).0);
    }
  }

  /** Following pending needs from a pending node reaches one whose needs are all settled. */
  lemma {:induction false} DeepestPending(d: Dag, st: State, id: NodeID) returns (x: NodeID)
    requires WellFormed(d) && Acyclic(d.Needs()) && Coherent(d, st)
    requires id in d.nodes && st.status[id] == Pending
    ensures x in d.nodes && st.status[x] == Pending
    ensures forall u :: u in d.nodes[x].ins ==> u in d.nodes && st.status[u] != Pending
    ensures x == id || Reaches(d.Needs(), id, x)
    decreases Depth(d.Needs(), id)
  {
    Neighbours(d, id);
    if u :| u in d.nodes[id].ins && st.status[u] == Pending {
      DepthEdges(d.Needs(), id);
      assert u in d.Needs()[id];
      x := DeepestPending(d, st, u);
      EdgeReaches(d.Needs(), id, u, x);
    } else {
      x := id;
    }
  }

  /** With nothing handed out, a run that is not over has a pending node whose needs are all final. */
  lemma IdleNode(d: Dag, st: State) returns (x: NodeID)
    requires WellFormed(d) && Acyclic(d.Needs()) && Coherent(d, st) && st.dispatched == {} && !AllDone(st.status)
    ensures x in d.nodes && st.status[x] == Pending && AllFinished(d.nodes[x], st.status)
  {
    var id :| id in st.status && !st.status[id].IsTerminal();
    JustifiedAt(d, st, id);
    x := DeepestPending(d, st, id);
    forall u | u in d.nodes[x].ins ensures Finished(st.status, u) {
      JustifiedAt(d, st, u);
    }
  }

  /** With nothing handed out and not everything final, NextReady settles at least one pending node. */
  lemma Progress(d: Dag, st: State)
    requires WellFormed(d) && Acyclic(d.Needs()) && Coherent(d, st)
    requires st.dispatched == {} && !AllDone(st.status)
    ensures exists id :: id in d.nodes && st.status[id] == Pending && Next(d, st).status[id] != Pending
    ensures Remaining(Next(d, st)) < Remaining(st)
  {
    var x := IdleNode(d, st);
    SweepSettles(d, st, x);
    SweepRemaining(d, st, |d.order|);
  }

  /** The stage at position `i` needs the one at the later position `j`, and both are still pending. */
  ghost predicate BothPending(d: Dag, st: State, i: nat, j: nat)
    requires WellFormed(d) && Covers(d, st)
  {
    LateNeed(d, i, j) && st.status[d.order[i]] == Pending && st.status[d.order[j]] == Pending
  }

  /** A stage with a need listed later that is still pending stays pending. */
  lemma LateStaysPending(d: Dag, st: State, i: nat, j: nat)
    requires WellFormed(d) && Coherent(d, st) && BothPending(d, st, i, j)
    ensures Next(d, st).status[d.order[i]] == Pending
  {
    SweepBefore(d, st, j, i);
    SweepBefore(d, st, i, i);
    SweepAfter(d, st, i, |d.order|);
    assert !Finished(Sweep(d, st, i).0.status, d.order[j]);
  }

  /** A stage left pending though its needs are final has a need listed later that was pending too. */
  lemma LateNeedOf(d: Dag, st: State, id: NodeID) returns (i: nat, j: nat)
    requires WellFormed(d) && Coherent(d, st) && id in d.nodes
    requires Next(d, st).status[id] == Pending && AllFinished(d.nodes[id], Next(d, st).status)
    ensures BothPending(d, st, i, j) && Next(d, st).status[d.order[j]] == Skipped
  {
    i := Position(d, id);
    SweepAfter(d, st, i, |d.order|);
    SweepCoherent(d, st, i);
    SweepCoherent(d, st, |d.order|);
    VisitExhausts(d, Sweep(d, st, i).0, id);
    Neighbours(d, id);
    var u :| u in d.nodes[id].ins && !Finished(Sweep(d, st, i).0.status, u);
    j := Position(d, u);
    UnfinishedLate(d, st, i, u);
    SettledBy(d, st, id);
  }

  lemma UnfinishedLate(d: Dag, st: State, k: nat, u: NodeID)
    requires WellFormed(d) && Coherent(d, st) && k < |d.order| && u in d.nodes && u != d.order[k]
    requires Finished(Next(d, st).status, u) && !Finished(Sweep(d, st, k).0.status, u)
    ensures k < Position(d, u) && st.status[u] == Pending && Next(d, st).status[u] == Skipped
  {
    SweepCoherent(d, st, k);
    NewlyFinal(d, st, u);
    JustifiedAt(d, st, u);
    SettledBy(d, st, u);
    if Position(d, u) < k {
      NeedBefore(d, st, k, u);
    }
  }

  /** After a poll that leaves nothing handed out the run is over exactly if, before it, no stage was pending together
      with a need listed later: otherwise the caller waits for nothing. */
  lemma WaitingIsSafeExactly(d: Dag, st: State)
    requires WellFormed(d) && Acyclic(d.Needs()) && Coherent(d, st) && Next(d, st).dispatched == {}
    ensures AllDone(Next(d, st).status) <==> !exists i, j :: BothPending(d, st, i, j)
  {
    if i, j :| BothPending(d, st, i, j) {
      LateStaysPending(d, st, i, j);
    } else {
      SweepCoherent(d, st, |d.order|);
      if !AllDone(Next(d, st).status) {
        var x := IdleNode(d, Next(d, st));
        var i, j := LateNeedOf(d, st, x);
      }
    }
  }

  /** No stage listed before one of its needs has this need skipped. */
  ghost predicate NoLateSkip(d: Dag, st: State)
    requires Covers(d, st)
  {
    forall i: nat, j: nat :: LateNeed(d, i, j) ==> st.status[d.order[j]] != Skipped
  }

  lemma SkipOrderedNone(d: Dag, st: State)
    requires WellFormed(d) && Coherent(d, st) && SkipOrdered(d)
    ensures NoLateSkip(d, st)
  {
    forall i: nat, j: nat | LateNeed(d, i, j) ensures st.status[d.order[j]] != Skipped {
      JustifiedAt(d, st, d.order[j]);
      NeverSkips(d.nodes[d.order[j]], st.status);
    }
  }

  /** A poll that skips no need listed late either leaves something handed out or ends the run. */
  lemma WaitingWithoutLateSkip(d: Dag, st: State)
    requires WellFormed(d) && Acyclic(d.Needs()) && Coherent(d, st) && NoLateSkip(d, Next(d, st))
    ensures Next(d, st).dispatched == {} ==> AllDone(Next(d, st).status)
  {
    SweepCoherent(d, st, |d.order|);
    if Next(d, st).dispatched == {} && !AllDone(Next(d, st).status) {
      var x := IdleNode(d, Next(d, st));
      var i, j := LateNeedOf(d, st, x);
    }
  }

  /** With needs that can be skipped listed first, a poll either leaves something handed out or ends the run, so
      that waiting for a completion after a poll that returned nothing is safe. */
  lemma WaitingIsSafe(d: Dag, st: State)
    requires WellFormed(d) && Acyclic(d.Needs()) && Coherent(d, st) && SkipOrdered(d)
    ensures Next(d, st).dispatched == {} ==> AllDone(Next(d, st).status)
  {
    SweepCoherent(d, st, |d.order|);
    SkipOrderedNone(d, Next(d, st));
    WaitingWithoutLateSkip(d, st);
  }

  /** Without that order it is not: here the first poll returns nothing, nothing is handed out, and the run
      is not over. */
  lemma WaitingForNothing(d: Dag, x: NodeID, y: NodeID)
    requires WellFormed(d) && d.order == [x, y]
    requires d.nodes.Keys == {x, y} && d.nodes[x].ins == [y] && d.nodes[y].ins == [] && OnFailure(d.nodes[y])
    ensures ReadyList(d, Initial(d)) == [] && Next(d, Initial(d)).dispatched == {}
    ensures !AllDone(Next(d, Initial(d)).status)
  {
    var st := Initial(d);
    OrderNodes(d);
    hide WellFormed;
    assert y in d.nodes[x].ins && !Finished(st.status, y);
    assert !AllFinished(d.nodes[x], st.status);
    assert Visit(d, st, x) == (st, []);
    assert Visit(d, st, y) == (State(st.status[y := Skipped], {}), []);
    assert Sweep(d, st, 0) == (st, []) && d.order[0] == x && d.order[1] == y;
    assert Sweep(d, st, 0).1 + Visit(d, st, x).1 == [];
    assert Sweep(d, st, 1) == (st, []);
    assert Sweep(d, st, 2).0 == State(st.status[y := Skipped], {}) && Sweep(d, st, 2).1 == [];
    assert x != y && Next(d, st).status[x] == Pending;
  }

  /** The order is not needed in every pipeline: here `v` is listed before a need that is skipped, but the poll
      that skips it hands out another stage, whose completion leads to a poll that settles `v`. */
  ghost predicate ThreeStages(d: Dag, v: NodeID, u: NodeID, z: NodeID) {
    && WellFormed(d) && d.order == [v, u, z] && d.nodes.Keys == {v, u, z}
    && d.nodes[v].ins == [u] && d.nodes[u].ins == [] && d.nodes[z].ins == []
    && OnFailure(d.nodes[u]) && !OnFailure(d.nodes[z])
  }

  lemma ThreeAtFirst(d: Dag, v: NodeID, u: NodeID, z: NodeID)
    requires ThreeStages(d, v, u, z)
    ensures !SkipOrdered(d) && Next(d, Initial(d)).dispatched != {}
  {
    var st := Initial(d);
    assert d.order[0] == v && d.order[1] == u && d.order[2] == z;
    assert LateNeed(d, 0, 1) && CanSkip(d.nodes[u]);
    InitialCoherent(d);
    SweepCoherent(d, st, |d.order|);
    SweepSettles(d, st, z);
    assert Decide(d.nodes[z], Next(d, st).status) != Skipped;
    JustifiedAt(d, Next(d, st), z);
    SettledBy(d, st, z);
    assert z in Next(d, st).dispatched;
  }

  /** At first nothing has happened, and later `u` is settled. */
  ghost predicate Under(d: Dag, st: State, u: NodeID) {
    st == Initial(d) || (u in st.status && st.status[u] != Pending)
  }

  lemma UnderStep(d: Dag, st: State, a: Action, u: NodeID)
    requires WellFormed(d) && Coherent(d, st) && Legal(st, a) && Under(d, st, u)
    requires u in d.nodes && d.nodes[u].ins == []
    ensures Under(d, Step(d, st, a), u)
  {
    match a
    case Poll =>
      SweepCoherent(d, st, |d.order|);
      if st.status[u] == Pending {
        SweepSettles(d, st, u);
      }
    case Finish(id, result) =>
  }

  lemma {:induction false} RunUnder(d: Dag, st: State, acts: seq<Action>, u: NodeID)
    requires WellFormed(d) && Coherent(d, st) && LegalRun(d, st, acts) && Under(d, st, u)
    requires u in d.nodes && d.nodes[u].ins == []
    ensures Under(d, Exec(d, st, acts), u)
    decreases |acts|
  {
    if acts != [] {
      UnderStep(d, st, acts[0], u);
      StepCoherent(d, st, acts[0]);
      RunUnder(d, Step(d, st, acts[0]), acts[1..], u);
    }
  }

  /** The state after a legal run from the start. */
  ghost predicate Reached(d: Dag, acts: seq<Action>, st: State)
    requires WellFormed(d)
    ensures Reached(d, acts, st) ==> Coherent(d, st)
  {
    InitialCoherent(d);
    LegalRun(d, Initial(d), acts) && st == Exec(d, Initial(d), acts)
  }

  lemma ThreeRun(d: Dag, v: NodeID, u: NodeID, z: NodeID, acts: seq<Action>)
    requires ThreeStages(d, v, u, z) && LegalRun(d, Initial(d), acts)
    ensures WellFormed(d) && Coherent(d, Exec(d, Initial(d), acts)) && Under(d, Exec(d, Initial(d), acts), u)
  {
    RunUnder(d, Initial(d), acts, u);
  }

  lemma ThreeNotLate(d: Dag, v: NodeID, u: NodeID, z: NodeID, st: State, i: nat, j: nat)
    requires ThreeStages(d, v, u, z) && Coherent(d, st) && Under(d, st, u) && Next(d, st).dispatched == {}
    ensures !BothPending(d, st, i, j)
  {
    ThreeAtFirst(d, v, u, z);
    hide Coherent, Next, SkipOrdered, BothPending, ThreeStages;
    if BothPending(d, st, i, j) {
      ThreeLate(d, v, u, z, st, i, j);
    }
  }

  lemma ThreeLate(d: Dag, v: NodeID, u: NodeID, z: NodeID, st: State, i: nat, j: nat)
    requires ThreeStages(d, v, u, z) && Covers(d, st) && BothPending(d, st, i, j)
    ensures u in st.status && st.status[u] == Pending
  {
    hide WellFormed, Next;
    assert d.order[j] == u;
  }

  lemma ThreeSafe(d: Dag, v: NodeID, u: NodeID, z: NodeID, st: State)
    requires ThreeStages(d, v, u, z) && Acyclic(d.Needs()) && Coherent(d, st) && Under(d, st, u)
    ensures Next(d, st).dispatched == {} ==> AllDone(Next(d, st).status)
  {
    assert WellFormed(d) && Covers(d, st);
    hide ThreeStages, BothPending, Under, Coherent, Next, Acyclic, AllDone;
    if Next(d, st).dispatched == {} {
      WaitingIsSafeExactly(d, st);
      forall i: nat, j: nat ensures !BothPending(d, st, i, j) {
        ThreeNotLate(d, v, u, z, st, i, j);
      }
    }
  }

  lemma OrderNotNeeded(d: Dag, v: NodeID, u: NodeID, z: NodeID, acts: seq<Action>, st: State)
    requires ThreeStages(d, v, u, z) && Acyclic(d.Needs()) && Reached(d, acts, st)
    ensures !SkipOrdered(d)
    ensures Next(d, st).dispatched == {} ==> AllDone(Next(d, st).status)
  {
    ThreeAtFirst(d, v, u, z);
    ThreeRun(d, v, u, z, acts);
    ThreeSafe(d, v, u, z, st);
  }

  /** From every coherent state some legal run with outcomes `o` makes all nodes final. */
  lemma {:induction false} Completes(d: Dag, o: Statuses, st: State) returns (acts: seq<Action>)
    requires WellFormed(d) && Acyclic(d.Needs()) && OutcomesFor(d, o) && Coherent(d, st)
    ensures LegalRun(d, st, acts) && Follows(acts, o) && AllDone(Exec(d, st, acts).status)
    decreases Remaining(st)
  {
    if AllDone(st.status) {
      acts := [];
    } else {
      var a := Poll;
      if id :| id in st.dispatched {
        a := Finish(id, o[id]);
        CompletionRemaining(d, st, id, o[id]);
      } else {
        Progress(d, st);
      }
      StepCoherent(d, st, a);
      var rest := Completes(d, o, Step(d, st, a));
      acts := [a] + rest;
      assert acts[1..] == rest;
    }
  }

  lemma CompletionRemaining(d: Dag, st: State, id: NodeID, result: NodeStatus)
    requires WellFormed(d) && Coherent(d, st) && Legal(st, Finish(id, result))
    ensures Remaining(Completed(st, id, result)) < Remaining(st)
  {
    assert PendingNodes(Completed(st, id, result)) == PendingNodes(st);
  }

  lemma PollStep(d: Dag, st: State, o: Statuses)
    requires WellFormed(d) && Acyclic(d.Needs()) && Coherent(d, st) && Faithful(st, o)
    ensures Coherent(d, Next(d, st)) && Faithful(Next(d, st), o)
    ensures Remaining(Next(d, st)) <= Remaining(st)
    ensures Next(d, st).dispatched == {} && !AllDone(Next(d, st).status) ==> Remaining(Next(d, st)) < Remaining(st)
  {
    SweepCoherent(d, st, |d.order|);
    SweepFaithful(d, st, o, |d.order|);
    SweepRemaining(d, st, |d.order|);
    if Next(d, st) == st && st.dispatched == {} && !AllDone(st.status) {
      Progress(d, st);
    }
  }

  lemma FinishStep(d: Dag, st: State, o: Statuses, id: NodeID)
    requires WellFormed(d) && Coherent(d, st) && Faithful(st, o) && OutcomesFor(d, o) && id in st.dispatched
    ensures CompleteVerdict(st, id, o[id]) == None
    ensures Coherent(d, Completed(st, id, o[id])) && Faithful(Completed(st, id, o[id]), o)
    ensures Remaining(Completed(st, id, o[id])) < Remaining(st)
  {
    StepCoherent(d, st, Finish(id, o[id]));
    CompletionRemaining(d, st, id, o[id]);
  }

  /** One round of the loop: poll, then wait for some handed-out node to complete. */
  method DriveRound(sch: Scheduler, o: Statuses) returns (done: bool)
    requires sch.Valid() && Acyclic(sch.dag.Needs()) && OutcomesFor(sch.dag, o)
    requires Coherent(sch.dag, sch.Current()) && Faithful(sch.Current(), o)
    modifies sch
    ensures sch.Valid() && Coherent(sch.dag, sch.Current()) && Faithful(sch.Current(), o)
    ensures done ==> AllDone(sch.status)
    ensures !done ==> Remaining(sch.Current()) < old(Remaining(sch.Current()))
  {
    PollStep(sch.dag, sch.Current(), o);
    var ready := sch.NextReady();
    done := sch.Done();
    if !done && sch.dispatched != {} {
      var id :| id in sch.dispatched;
      FinishStep(sch.dag, sch.Current(), o, id);
      var err := sch.Complete(id, o[id]);
    }
  }

  /** The caller's loop that the comment on Scheduler describes, completing handed-out nodes in any order: it ends,
      and it ends in FinalStatuses. */
  method Drive(d: Dag, o: Statuses) returns (sch: Scheduler)
    requires WellFormed(d) && Acyclic(d.Needs()) && OutcomesFor(d, o)
    ensures fresh(sch) && sch.dag == d && sch.status == FinalStatuses(d, o)
  {
    sch := new Scheduler(d);
    InitialCoherent(d);
    var done := false;
    while !done
      invariant sch.dag == d && sch.Valid() && fresh(sch)
      invariant Coherent(d, sch.Current()) && Faithful(sch.Current(), o)
      invariant done ==> AllDone(sch.status)
      decreases !done, Remaining(sch.Current())
    {
      done := DriveRound(sch, o);
    }
    FinalStates(d, o, sch.Current());
  }
}
