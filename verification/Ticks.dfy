/** The production form of the scheduler (api/pkg/runengine/orchestrate.go): every tick rebuilds a
    scheduler from the stored stage rows, polls it once, and stores what it handed out. */
module Ticks {
  import opened Sequences
  import opened Digraphs
  import opened Pipelines
  import opened Dags
  import opened Schedulers
  import opened Runs

  type Rows = map<NodeID, RowStatus>

  datatype Decision = Approved | Rejected | TimedOut

  /** The approval requests that have been decided. */
  type Decisions = map<NodeID, Decision>

  // ---- One tick as a function of the rows ----

  function VerdictRow(v: Decision): RowStatus {
    if v == Approved then SuccessRow else FailedRow
  }

  function VerdictStatus(v: Decision): NodeStatus {
    if v == Approved then Success else Failed
  }

  /** Rows of decided approvals are completed. */
  function Synced(rows: Rows, decided: Decisions): Rows {
    map id | id in rows :: if rows[id] == ApprovalRow && id in decided then VerdictRow(decided[id]) else rows[id]
  }

  /** The scheduler of this tick after its approvals are synchronised. */
  function Rebuilt(d: Dag, rows: Rows): State {
    Restored(Initial(d), rows)
  }

  function DispatchRow(n: Node): RowStatus {
    if IsApproval(n) then ApprovalRow else RunningRow
  }

  /** The rows of the nodes in `ready` are marked as handed out. */
  function Marked(d: Dag, rows: Rows, ready: seq<NodeID>): Rows {
    map id | id in rows :: if id in ready && id in d.nodes then DispatchRow(d.nodes[id]) else rows[id]
  }

  ghost predicate RowsFor(d: Dag, rows: Rows) {
    rows.Keys == d.nodes.Keys
  }

  function TickState(d: Dag, rows: Rows, decided: Decisions): State
    requires WellFormed(d)
  {
    Next(d, Rebuilt(d, Synced(rows, decided)))
  }

  function TickReady(d: Dag, rows: Rows, decided: Decisions): seq<NodeID>
    requires WellFormed(d)
  {
    ReadyList(d, Rebuilt(d, Synced(rows, decided)))
  }

  function TickRows(d: Dag, rows: Rows, decided: Decisions): Rows
    requires WellFormed(d)
  {
    Marked(d, Synced(rows, decided), TickReady(d, rows, decided))
  }

  // ---- The long-lived scheduler seen through the database ----

  /** How Advance stores a status: a skip is never written, so the row stays PendingRow. */
  function Row(s: NodeStatus): RowStatus {
    match s
    case Success => SuccessRow
    case Failed => FailedRow
    case Canceled => CanceledRow
    case Running => RunningRow
    case WaitingApproval => ApprovalRow
    case _ => PendingRow
  }

  function Stored(st: State): Rows {
    map id | id in st.status :: Row(st.status[id])
  }

  /** The long-lived scheduler completes the decided approvals among the first `k` nodes of Order. */
  function Resolved(d: Dag, st: State, decided: Decisions, k: nat): State
    requires k <= |d.order|
  {
    if k == 0 then st
    else
      var prev, id := Resolved(d, st, decided, k - 1), d.order[k - 1];
      if id in prev.status && prev.status[id] == WaitingApproval && id in decided
      then Completed(prev, id, VerdictStatus(decided[id])) else prev
  }

  /** What happens to a run between and at ticks: a stage ends, or the request of an approval that a tick has handed
      out cannot be created. */
  datatype Event =
    | Tick(decided: Decisions)
    | StageDone(id: NodeID, success: bool)
    | Broke(id: NodeID)

  function DoneStatus(success: bool): NodeStatus {
    if success then Success else Failed
  }

  /** A stage reports completion only while it runs, and only a waiting approval breaks. */
  predicate Happens(rows: Rows, e: Event) {
    match e
    case Tick(_) => true
    case StageDone(id, _) => id in rows && rows[id] == RunningRow
    case Broke(id) => id in rows && rows[id] == ApprovalRow
  }

  function RowsStep(d: Dag, rows: Rows, e: Event): Rows
    requires WellFormed(d)
  {
    match e
    case Tick(decided) => TickRows(d, rows, decided)
    case StageDone(id, success) => rows[id := Row(DoneStatus(success))]
    case Broke(id) => rows[id := FailedRow]
  }

  function LongStep(d: Dag, st: State, e: Event): State
    requires WellFormed(d) && Coherent(d, st)
  {
    match e
    case Tick(decided) =>
      ResolvedCoherent(d, st, decided, |d.order|);
      Next(d, Resolved(d, st, decided, |d.order|))
    case StageDone(id, success) => Completed(st, id, DoneStatus(success))
    case Broke(id) => Completed(st, id, Failed)
  }

  lemma {:induction false} ResolvedCoherent(d: Dag, st: State, decided: Decisions, k: nat)
    requires WellFormed(d) && Coherent(d, st) && k <= |d.order|
    ensures Coherent(d, Resolved(d, st, decided, k))
  {
    if k > 0 {
      ResolvedCoherent(d, st, decided, k - 1);
      var prev, id := Resolved(d, st, decided, k - 1), d.order[k - 1];
      if prev.status[id] == WaitingApproval && id in decided {
        StepCoherent(d, prev, Finish(id, VerdictStatus(decided[id])));
      }
    }
  }

  /** `after` is `before` with the decided approvals among the nodes `seen` completed. */
  ghost predicate Settled(before: State, after: State, decided: Decisions, seen: set<NodeID>) {
    && after.status.Keys == before.status.Keys
    && forall id :: id in before.status ==>
         after.status[id] ==
         (if id in seen && before.status[id] == WaitingApproval && id in decided
          then VerdictStatus(decided[id]) else before.status[id])
  }

  lemma SettleOne(before: State, after: State, decided: Decisions, seen: set<NodeID>, id: NodeID)
    requires Settled(before, after, decided, seen) && id in before.status && id !in seen
    ensures before.status[id] == after.status[id]
    ensures Settled(before,
                    if after.status[id] == WaitingApproval && id in decided
                    then Completed(after, id, VerdictStatus(decided[id])) else after,
                    decided, seen + {id})
  {
  }

  lemma {:induction false} ResolvedEffect(d: Dag, st: State, decided: Decisions, k: nat)
    requires Distinct(d.order) && (forall id :: id in d.order ==> id in st.status) && k <= |d.order|
    ensures Settled(st, Resolved(d, st, decided, k), decided, Elements(d.order[..k]))
  {
    if k > 0 {
      ResolvedEffect(d, st, decided, k - 1);
      var seen := Elements(d.order[..k - 1]);
      assert d.order[..k] == d.order[..k - 1] + [d.order[k - 1]];
      assert Elements(d.order[..k]) == seen + {d.order[k - 1]};
      assert d.order[k - 1] !in d.order[..k - 1];
      SettleOne(st, Resolved(d, st, decided, k - 1), decided, seen, d.order[k - 1]);
    }
  }

  lemma LongStepCoherent(d: Dag, st: State, e: Event)
    requires WellFormed(d) && Coherent(d, st) && Happens(Stored(st), e)
    ensures Coherent(d, LongStep(d, st, e))
  {
    match e
    case Tick(decided) =>
      ResolvedCoherent(d, st, decided, |d.order|);
      StepCoherent(d, Resolved(d, st, decided, |d.order|), Poll);
    case StageDone(id, success) =>
      StepCoherent(d, st, Finish(id, DoneStatus(success)));
    case Broke(id) =>
      StepCoherent(d, st, Finish(id, Failed));
  }

  // ---- When a tick agrees with the long-lived scheduler ----

  /** `st` with the skips of all but the first `k` nodes forgotten. */
  function Forget(d: Dag, st: State, k: nat): State
    requires k <= |d.order|
  {
    st.(status := map id | id in st.status ::
      if st.status[id] == Skipped && id !in d.order[..k] then Pending else st.status[id])
  }

  /** What a coherent state says without looking at the needs. */
  ghost predicate Tracks(d: Dag, st: State) {
    && Covers(d, st)
    && (forall id :: id in st.dispatched <==> id in d.nodes && st.status[id] in {Running, WaitingApproval})
    && (forall id :: id in d.nodes ==> st.status[id] != Ready)
  }

  lemma CoherentTracks(d: Dag, st: State)
    requires WellFormed(d) && Coherent(d, st)
    ensures Tracks(d, st)
  {
    forall id | id in d.nodes ensures st.status[id] != Ready {
      assert Justified(d.nodes[id], st.status);
    }
  }

  lemma RebuiltEffect(d: Dag, rows: Rows)
    requires RowsFor(d, rows)
    ensures Covers(d, Rebuilt(d, rows))
    ensures forall id :: id in d.nodes ==> Rebuilt(d, rows).status[id] == FromRow(rows[id])
    ensures forall id :: id in Rebuilt(d, rows).dispatched <==>
              id in d.nodes && FromRow(rows[id]) in {Running, WaitingApproval}
  {
  }

  lemma RowRoundTrip(s: NodeStatus)
    requires s != Ready
    ensures FromRow(Row(s)) == if s == Skipped then Pending else s
  {
  }

  /** Rebuilding from the rows forgets the skips and nothing else. */
  lemma RebuiltForgets(d: Dag, st: State)
    requires Tracks(d, st)
    ensures Rebuilt(d, Stored(st)) == Forget(d, st, 0)
  {
    RebuiltEffect(d, Stored(st));
    var st' := Rebuilt(d, Stored(st));
    forall id | id in d.nodes {
      RowRoundTrip(st.status[id]);
    }
    assert st'.status == Forget(d, st, 0).status;
    forall id ensures id in st'.dispatched <==> id in st.dispatched {
      if id in d.nodes {
        RowRoundTrip(st.status[id]);
      }
    }
    assert st'.dispatched == st.dispatched;
  }

  /** A need is never forgotten by the time a sweep comes to the node: it is listed earlier or is not skipped. */
  lemma NeedRemembered(d: Dag, st: State, k: nat, u: NodeID)
    requires WellFormed(d) && Coherent(d, st) && NoLateSkip(d, st) && k < |d.order|
    requires u in d.nodes[d.order[k]].ins
    ensures u in d.nodes && Forget(d, st, k).status[u] == st.status[u]
  {
    Neighbours(d, d.order[k]);
    var j := Position(d, u);
    if j < k {
      assert u in d.order[..k];
    } else {
      assert LateNeed(d, k, j);
    }
  }

  lemma DecisionRemembered(d: Dag, st: State, k: nat)
    requires WellFormed(d) && Coherent(d, st) && NoLateSkip(d, st) && k < |d.order|
    ensures Decide(d.nodes[d.order[k]], Forget(d, st, k).status) == Decide(d.nodes[d.order[k]], st.status)
  {
    var n := d.nodes[d.order[k]];
    forall u | u in n.ins ensures u in st.status && Forget(d, st, k).status[u] == st.status[u] {
      NeedRemembered(d, st, k, u);
    }
    DecideLocal(n, st.status, Forget(d, st, k).status);
  }

  /** Giving the next node a status, after forgetting, is giving it that status and remembering one more. */
  lemma ForgetNext(d: Dag, st: State, k: nat, s: NodeStatus)
    requires k < |d.order| && Distinct(d.order) && d.order[k] in st.status
    ensures Forget(d, st.(status := st.status[d.order[k] := s]), k + 1).status ==
            Forget(d, st, k).status[d.order[k] := s]
  {
    var id := d.order[k];
    assert d.order[..k + 1] == d.order[..k] + [id];
    assert id !in d.order[..k];
  }

  /** Visiting the next node in both schedulers: the rebuilt one recomputes a forgotten skip. */
  lemma VisitRemembers(d: Dag, st: State, k: nat)
    requires WellFormed(d) && Coherent(d, st) && NoLateSkip(d, st) && k < |d.order|
    ensures Visit(d, Forget(d, st, k), d.order[k]).1 == Visit(d, st, d.order[k]).1
    ensures Visit(d, Forget(d, st, k), d.order[k]).0 == Forget(d, Visit(d, st, d.order[k]).0, k + 1)
  {
    hide WellFormed, NoLateSkip, Coherent, Decide, AllFinished, IsApproval;
    OrderNodes(d);
    CoherentTracks(d, st);
    var id := d.order[k];
    DecisionRemembered(d, st, k);
    JustifiedAt(d, st, id);
    var s := Visit(d, st, id).0.status[id];
    ForgetNext(d, st, k, s);
    assert st.status[id := s] == Visit(d, st, id).0.status;
    assert id !in d.order[..k];
    if Visit(d, st, id).0 == st && st.status[id] != Skipped {
      assert Forget(d, st, k).status[id := s] == Forget(d, st, k).status;
    }
  }

  lemma ForgetCovers(d: Dag, st: State, k: nat)
    requires Covers(d, st) && k <= |d.order|
    ensures Covers(d, Forget(d, st, k))
  {
  }

  /** What a sweep has skipped stays skipped, so a late skip would still be there at its end. */
  lemma LateSkipStays(d: Dag, st: State, k: nat)
    requires WellFormed(d) && Coherent(d, st) && k <= |d.order| && NoLateSkip(d, Next(d, st))
    ensures NoLateSkip(d, Sweep(d, st, k).0)
  {
    hide WellFormed, Coherent, Sweep, Next;
    SweepStart(d, st);
    forall i: nat, j: nat | LateNeed(d, i, j) ensures Sweep(d, st, k).0.status[d.order[j]] != Skipped {
      SkipStays(d, st, k, j);
    }
  }

  lemma SkipStays(d: Dag, st: State, k: nat, j: nat)
    requires WellFormed(d) && Coherent(d, st) && k <= |d.order| && j < |d.order|
    ensures d.order[j] in d.nodes
    ensures Sweep(d, st, k).0.status[d.order[j]] == Skipped ==> Next(d, st).status[d.order[j]] == Skipped
  {
    OrderNodes(d);
    SweepCoherent(d, st, |d.order|);
    hide Visit, Decide;
    if j < k {
      SweepAfter(d, st, j, |d.order|);
      SweepAfter(d, st, j, k);
    } else {
      SweepBefore(d, st, j, k);
    }
  }

  lemma {:induction false} SweepRemembers(d: Dag, st: State, k: nat)
    requires WellFormed(d) && Coherent(d, st) && NoLateSkip(d, Next(d, st)) && k <= |d.order|
    ensures Sweep(d, Forget(d, st, 0), k) == (Forget(d, Sweep(d, st, k).0, k), Sweep(d, st, k).1)
  {
    hide WellFormed, Visit, Forget, Coherent, NoLateSkip, Next;
    OrderNodes(d);
    CoherentTracks(d, st);
    ForgetCovers(d, st, 0);
    if k > 0 {
      SweepRemembers(d, st, k - 1);
      SweepCoherent(d, st, k - 1);
      LateSkipStays(d, st, k - 1);
      VisitRemembers(d, Sweep(d, st, k - 1).0, k - 1);
    }
  }

  /** One poll of the rebuilt scheduler equals one poll of the long-lived one, if that leaves no need listed late
      skipped: same ready list, same state. */
  lemma PollAgrees(d: Dag, st: State)
    requires WellFormed(d) && Coherent(d, st) && NoLateSkip(d, Next(d, st))
    ensures ReadyList(d, Rebuilt(d, Stored(st))) == ReadyList(d, st)
    ensures Next(d, Rebuilt(d, Stored(st))) == Next(d, st)
  {
    CoherentTracks(d, st);
    RebuiltForgets(d, st);
    SweepRemembers(d, st, |d.order|);
    NothingForgotten(d, Next(d, st));
  }

  lemma NothingForgotten(d: Dag, st: State)
    requires WellFormed(d) && Covers(d, st)
    ensures Forget(d, st, |d.order|) == st
  {
    assert d.order[..|d.order|] == d.order;
    assert Forget(d, st, |d.order|).status == st.status;
  }

  // ---- One event in both systems ----

  lemma AllSettled(d: Dag, st: State, decided: Decisions)
    requires WellFormed(d) && Coherent(d, st)
    ensures Settled(st, Resolved(d, st, decided, |d.order|), decided, st.status.Keys)
  {
    hide WellFormed, Coherent, Resolved;
    CoherentTracks(d, st);
    OrderNodes(d);
    ResolvedEffect(d, st, decided, |d.order|);
    assert d.order[..|d.order|] == d.order;
    assert Elements(d.order) == st.status.Keys;
  }

  lemma SettledStored(before: State, after: State, decided: Decisions)
    requires Settled(before, after, decided, before.status.Keys)
    ensures Synced(Stored(before), decided) == Stored(after)
  {
    var rows, rows' := Synced(Stored(before), decided), Stored(after);
    forall id | id in before.status ensures rows[id] == rows'[id] {}
  }

  lemma SyncAgrees(d: Dag, st: State, decided: Decisions)
    requires WellFormed(d) && Coherent(d, st)
    ensures Synced(Stored(st), decided) == Stored(Resolved(d, st, decided, |d.order|))
  {
    AllSettled(d, st, decided);
    SettledStored(st, Resolved(d, st, decided, |d.order|), decided);
  }

  /** What a poll did to a node: handed out, skipped, or left alone. */
  ghost predicate Swept(d: Dag, before: State, after: State, ready: seq<NodeID>) {
    forall id :: id in before.status && id in after.status && id in d.nodes ==>
      if id in ready then before.status[id] == Pending && after.status[id] == Dispatched(d.nodes[id])
      else after.status[id] == before.status[id] || (before.status[id] == Pending && after.status[id] == Skipped)
  }

  lemma VisitSwept(d: Dag, before: State, st: State, ready: seq<NodeID>, id: NodeID)
    requires Covers(d, before) && Covers(d, st) && id in d.nodes && Swept(d, before, st, ready)
    ensures Swept(d, before, Visit(d, st, id).0, ready + Visit(d, st, id).1)
  {
    hide Decide;
  }

  lemma NothingSwept(d: Dag, st: State)
    ensures Swept(d, st, st, [])
  {
  }

  lemma {:induction false} SweepSwept(d: Dag, st: State, k: nat)
    requires WellFormed(d) && Covers(d, st) && k <= |d.order|
    ensures Swept(d, st, Sweep(d, st, k).0, Sweep(d, st, k).1)
  {
    OrderNodes(d);
    hide WellFormed, Visit, Swept;
    if k == 0 {
      NothingSwept(d, st);
    } else {
      SweepSwept(d, st, k - 1);
      var (s, ready) := Sweep(d, st, k - 1);
      VisitSwept(d, st, s, ready, d.order[k - 1]);
    }
  }

  /** Storing what a poll handed out stores its whole effect: a skip has the same row as before. */
  lemma MarkedStored(d: Dag, st: State)
    requires WellFormed(d) && Covers(d, st)
    ensures Marked(d, Stored(st), ReadyList(d, st)) == Stored(Next(d, st))
  {
    hide WellFormed, Visit;
    SweepSwept(d, st, |d.order|);
    SweptStored(d, st, Next(d, st), ReadyList(d, st));
  }

  lemma SweptStored(d: Dag, before: State, after: State, ready: seq<NodeID>)
    requires Covers(d, before) && Covers(d, after) && Swept(d, before, after, ready)
    ensures Marked(d, Stored(before), ready) == Stored(after)
  {
    var rows, rows' := Marked(d, Stored(before), ready), Stored(after);
    forall id | id in d.nodes ensures rows[id] == rows'[id] {}
  }

  /** A tick over the stored rows of the long-lived scheduler does what that scheduler does. */
  lemma TickAgrees(d: Dag, st: State, decided: Decisions)
    requires WellFormed(d) && Coherent(d, st) && NoLateSkip(d, LongStep(d, st, Tick(decided)))
    ensures var resolved := Resolved(d, st, decided, |d.order|);
            && Coherent(d, resolved)
            && TickReady(d, Stored(st), decided) == ReadyList(d, resolved)
            && TickState(d, Stored(st), decided) == LongStep(d, st, Tick(decided))
            && TickRows(d, Stored(st), decided) == Stored(LongStep(d, st, Tick(decided)))
  {
    var resolved := Resolved(d, st, decided, |d.order|);
    ResolvedCoherent(d, st, decided, |d.order|);
    SyncAgrees(d, st, decided);
    PollAgrees(d, resolved);
    MarkedStored(d, resolved);
  }

  lemma CompletedStored(st: State, id: NodeID, s: NodeStatus)
    requires id in st.status
    ensures Stored(Completed(st, id, s)) == Stored(st)[id := Row(s)]
  {
  }

  lemma EventAgrees(d: Dag, st: State, e: Event)
    requires WellFormed(d) && Coherent(d, st) && Happens(Stored(st), e) && NoLateSkip(d, LongStep(d, st, e))
    ensures RowsStep(d, Stored(st), e) == Stored(LongStep(d, st, e))
  {
    hide WellFormed, Coherent, NoLateSkip, Resolved, Next, TickRows;
    match e
    case Tick(decided) => TickAgrees(d, st, decided);
    case StageDone(id, success) => CompletedStored(st, id, DoneStatus(success));
    case Broke(id) => CompletedStored(st, id, Failed);
  }

  // ---- Whole runs ----

  function InitialRows(d: Dag): Rows {
    map id | id in d.nodes :: PendingRow
  }

  function RowsAfter(d: Dag, rows: Rows, events: seq<Event>): Rows
    requires WellFormed(d)
  {
    if events == [] then rows
    else RowsStep(d, RowsAfter(d, rows, events[..|events| - 1]), events[|events| - 1])
  }

  /** Every event happens in the state of the rows at its time. */
  predicate Possible(d: Dag, rows: Rows, events: seq<Event>)
    requires WellFormed(d)
  {
    events == [] ||
    (Possible(d, rows, events[..|events| - 1]) &&
     Happens(RowsAfter(d, rows, events[..|events| - 1]), events[|events| - 1]))
  }

  /** The long-lived scheduler after the same events. */
  ghost function LongAfter(d: Dag, events: seq<Event>): (st: State)
    requires WellFormed(d) && SkipOrdered(d) && Possible(d, InitialRows(d), events)
    ensures Coherent(d, st)
    ensures Stored(st) == RowsAfter(d, InitialRows(d), events)
  {
    if events == [] then
      InitialCoherent(d);
      assert Stored(Initial(d)) == InitialRows(d);
      Initial(d)
    else
      var st, e := LongAfter(d, events[..|events| - 1]), events[|events| - 1];
      LongStepCoherent(d, st, e);
      SkipOrderedNone(d, LongStep(d, st, e));
      EventAgrees(d, st, e);
      LongStep(d, st, e)
  }

  /** Refinement over whole runs: after any possible events the rows are those of the long-lived
      scheduler, and the next tick hands out the same nodes in the same order and reaches the same state. */
  lemma TicksRefine(d: Dag, events: seq<Event>, decided: Decisions)
    requires WellFormed(d) && SkipOrdered(d) && Possible(d, InitialRows(d), events)
    ensures var rows, st := RowsAfter(d, InitialRows(d), events), LongAfter(d, events);
            && rows == Stored(st)
            && Coherent(d, Resolved(d, st, decided, |d.order|))
            && TickReady(d, rows, decided) == ReadyList(d, Resolved(d, st, decided, |d.order|))
            && TickState(d, rows, decided) == Next(d, Resolved(d, st, decided, |d.order|))
  {
    var st := LongAfter(d, events);
    LongStepCoherent(d, st, Tick(decided));
    SkipOrderedNone(d, LongStep(d, st, Tick(decided)));
    TickAgrees(d, st, decided);
  }
}
