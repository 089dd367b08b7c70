/** One tick over the stored stages (api/pkg/runengine/orchestrate.go). */
module Orchestrate {
  import opened Sequences
  import opened Digraphs
  import opened Pipelines
  import opened Dags
  import opened Schedulers
  import opened Runs
  import opened Ticks
  import R = RunStates

  /** The outcome of a run that was over before the tick, or the one that its stages give it. */
  datatype RunOutcome = RunEnded(run: R.RunStatus) | StagesEnded(stages: NodeStatus)

  datatype AdvanceResult = AdvanceResult(
    done: bool,
    dispatched: seq<NodeID>,
    waiting: seq<NodeID>,
    outcome: Option<RunOutcome>)

  /** finalizeRun's error, or the result. */
  datatype Advanced = Advanced(result: AdvanceResult) | ErrFinalize(verdict: R.TransitionResult)

  function AlreadyOver(run: R.RunStatus): Advanced {
    Advanced(AdvanceResult(true, [], [], Some(RunEnded(run))))
  }

  /** The run status that finalizeRun asks the state machine for. */
  function FinalMark(outcome: NodeStatus): R.RunStatus {
    match outcome
    case Failed => R.Failed
    case Canceled => R.Canceled
    case _ => R.Success
  }

  function Approvals(d: Dag): set<NodeID> {
    set id | id in d.nodes && IsApproval(d.nodes[id])
  }

  // ---- Approvals whose request cannot be created ----

  /** The approvals whose request is not created: those of `broken`, or all if the run cannot take the status
      approval. */
  function Refused(d: Dag, run: R.RunStatus, broken: set<NodeID>): set<NodeID> {
    if R.TransitionVerdict(run, R.Approval).Done? then broken else broken + Approvals(d)
  }

  /** The run's row once the approvals `waiting` have been created. */
  function MarkedRun(run: R.Run, waiting: seq<NodeID>, now: nat): R.Run {
    if waiting == [] then run else R.Transitioned(run, R.Approval, now)
  }

  lemma MarkedNone(run: R.Run, now: nat)
    ensures MarkedRun(run, [], now) == run
  {
  }

  lemma MarkedAgain(run: R.Run, waiting: seq<NodeID>, id: NodeID, now: nat)
    requires R.TransitionVerdict(run.status, R.Approval).Done?
    ensures R.TransitionVerdict(MarkedRun(run, waiting, now).status, R.Approval).Done?
    ensures R.Transitioned(MarkedRun(run, waiting, now), R.Approval, now) == MarkedRun(run, waiting + [id], now)
  {
  }

  /** The node is handed out as an approval, and creating its request fails. */
  predicate Breaks(d: Dag, ready: seq<NodeID>, broken: set<NodeID>, id: NodeID) {
    id in ready && id in Approvals(d) && id in broken
  }

  /** The rows after a hand-out: a broken approval has failed. */
  function Handed(d: Dag, rows: Rows, ready: seq<NodeID>, broken: set<NodeID>): Rows {
    map id | id in rows :: if Breaks(d, ready, broken, id) then FailedRow else Marked(d, rows, ready)[id]
  }

  function WithBroken(d: Dag, st: State, ready: seq<NodeID>, broken: set<NodeID>): State {
    State(
      map id | id in st.status :: if Breaks(d, ready, broken, id) then Failed else st.status[id],
      set id | id in st.dispatched && !Breaks(d, ready, broken, id))
  }

  /** The scheduler at the end of a tick. */
  function TickEnd(d: Dag, rows: Rows, decided: Decisions, broken: set<NodeID>): State
    requires WellFormed(d)
  {
    WithBroken(d, TickState(d, rows, decided), TickReady(d, rows, decided), broken)
  }

  function EndRows(d: Dag, rows: Rows, decided: Decisions, broken: set<NodeID>): Rows
    requires WellFormed(d)
  {
    Handed(d, Synced(rows, decided), TickReady(d, rows, decided), broken)
  }

  /** If every request can be created a tick is as in the theorems about ticks. */
  lemma NothingBroken(d: Dag, rows: Rows, decided: Decisions, broken: set<NodeID>)
    requires WellFormed(d) && RowsFor(d, rows) && broken !! Approvals(d)
    ensures TickEnd(d, rows, decided, broken) == TickState(d, rows, decided)
    ensures EndRows(d, rows, decided, broken) == TickRows(d, rows, decided)
  {
    hide WellFormed, TickState, Approvals;
    var st := TickState(d, rows, decided);
    assert WithBroken(d, st, TickReady(d, rows, decided), broken).status == st.status;
    assert WithBroken(d, st, TickReady(d, rows, decided), broken).dispatched == st.dispatched;
  }

  lemma HandedNone(d: Dag, rows: Rows, st: State, broken: set<NodeID>)
    ensures Handed(d, rows, [], broken) == rows && WithBroken(d, st, [], broken) == st
  {
    assert Marked(d, rows, []) == rows;
    assert WithBroken(d, st, [], broken).status == st.status;
    assert WithBroken(d, st, [], broken).dispatched == st.dispatched;
  }

  lemma HandedNext(d: Dag, rows: Rows, ready: seq<NodeID>, broken: set<NodeID>, k: nat)
    requires k < |ready| && ready[k] in d.nodes && ready[k] in rows
    ensures Handed(d, rows, ready[..k + 1], broken) ==
            Handed(d, rows, ready[..k], broken)[ready[k] :=
              if IsApproval(d.nodes[ready[k]]) && ready[k] in broken then FailedRow else DispatchRow(d.nodes[ready[k]])]
  {
    assert ready[..k + 1] == ready[..k] + [ready[k]];
    assert forall id :: id in ready[..k + 1] <==> id in ready[..k] || id == ready[k];
  }

  lemma BrokenNext(d: Dag, st: State, ready: seq<NodeID>, broken: set<NodeID>, k: nat)
    requires k < |ready| && ready[k] in d.nodes && ready[k] in st.status && !st.status[ready[k]].IsTerminal()
    ensures var id, now := ready[k], WithBroken(d, st, ready[..k], broken);
            WithBroken(d, st, ready[..k + 1], broken) ==
            if id in Approvals(d) && id in broken && CompleteVerdict(now, id, Failed) == None
            then Completed(now, id, Failed) else now
  {
    var id := ready[k];
    assert ready[..k + 1] == ready[..k] + [id];
    assert forall x :: x in ready[..k + 1] <==> x in ready[..k] || x == id;
    var now, next := WithBroken(d, st, ready[..k], broken), WithBroken(d, st, ready[..k + 1], broken);
    if id in Approvals(d) && id in broken && CompleteVerdict(now, id, Failed) == None {
      assert next.status == Completed(now, id, Failed).status;
      assert next.dispatched == Completed(now, id, Failed).dispatched;
    } else {
      assert next.status == now.status;
      assert next.dispatched == now.dispatched;
    }
  }

  /** The part of Synced that the first `k` rows have seen. */
  ghost function SyncedTo(d: Dag, rows: Rows, decided: Decisions, k: nat): Rows
    requires k <= |d.order|
  {
    map id | id in rows ::
      if id in d.order[..k] && rows[id] == ApprovalRow && id in decided then VerdictRow(decided[id]) else rows[id]
  }

  lemma DispatchedUpdate(d: Dag, rows: Rows, id: NodeID, v: Decision)
    requires RowsFor(d, rows) && id in rows
    ensures Rebuilt(d, rows).dispatched - {id} == Rebuilt(d, rows[id := VerdictRow(v)]).dispatched
  {
    hide Rebuilt;
    RebuiltEffect(d, rows);
    RebuiltEffect(d, rows[id := VerdictRow(v)]);
  }

  lemma RebuiltUpdate(d: Dag, rows: Rows, id: NodeID, v: Decision)
    requires RowsFor(d, rows) && id in rows && rows[id] == ApprovalRow
    ensures CompleteVerdict(Rebuilt(d, rows), id, VerdictStatus(v)) == None
    ensures Completed(Rebuilt(d, rows), id, VerdictStatus(v)) == Rebuilt(d, rows[id := VerdictRow(v)])
  {
    hide Rebuilt;
    RebuiltEffect(d, rows);
    RebuiltEffect(d, rows[id := VerdictRow(v)]);
    assert FromRow(VerdictRow(v)) == VerdictStatus(v);
    DispatchedUpdate(d, rows, id, v);
    var a, b := Completed(Rebuilt(d, rows), id, VerdictStatus(v)), Rebuilt(d, rows[id := VerdictRow(v)]);
    assert a.status == b.status;
  }

  lemma SyncedNext(d: Dag, rows: Rows, decided: Decisions, k: nat)
    requires RowsFor(d, rows) && k < |d.order| && Distinct(d.order) && d.order[k] in rows
    ensures SyncedTo(d, rows, decided, k)[d.order[k]] == rows[d.order[k]]
    ensures SyncedTo(d, rows, decided, k + 1) ==
            if rows[d.order[k]] == ApprovalRow && d.order[k] in decided
            then SyncedTo(d, rows, decided, k)[d.order[k] := VerdictRow(decided[d.order[k]])]
            else SyncedTo(d, rows, decided, k)
  {
    assert d.order[..k + 1] == d.order[..k] + [d.order[k]];
    assert d.order[k] !in d.order[..k];
  }

  lemma SyncedNone(d: Dag, rows: Rows, decided: Decisions)
    ensures SyncedTo(d, rows, decided, 0) == rows
  {
  }

  lemma SyncedAll(d: Dag, rows: Rows, decided: Decisions)
    requires WellFormed(d) && RowsFor(d, rows)
    ensures SyncedTo(d, rows, decided, |d.order|) == Synced(rows, decided)
  {
    hide WellFormed;
    OrderNodes(d);
    assert d.order[..|d.order|] == d.order;
  }

  function SkipsStored(rows: Rows, status: Statuses, loaded: Rows): Rows {
    map id | id in rows ::
      if id in status && status[id] == Skipped && id in loaded && loaded[id] == PendingRow then SkippedRow else rows[id]
  }

  ghost function SkipsStoredTo(d: Dag, rows: Rows, status: Statuses, loaded: Rows, k: nat): Rows
    requires k <= |d.order|
  {
    map id | id in rows ::
      if id in d.order[..k] && id in status && status[id] == Skipped && id in loaded && loaded[id] == PendingRow
      then SkippedRow else rows[id]
  }

  lemma SkipsStoredEnds(d: Dag, rows: Rows, status: Statuses, loaded: Rows)
    requires RowsFor(d, rows) && forall id :: id in d.order <==> id in d.nodes
    ensures SkipsStoredTo(d, rows, status, loaded, 0) == rows
    ensures SkipsStoredTo(d, rows, status, loaded, |d.order|) == SkipsStored(rows, status, loaded)
  {
    assert d.order[..|d.order|] == d.order;
  }

  lemma SkipsStoredNext(d: Dag, rows: Rows, status: Statuses, loaded: Rows, k: nat)
    requires k < |d.order| && d.order[k] in rows
    ensures var id := d.order[k];
            SkipsStoredTo(d, rows, status, loaded, k + 1) ==
            if id in status && status[id] == Skipped && id in loaded && loaded[id] == PendingRow
            then SkipsStoredTo(d, rows, status, loaded, k)[id := SkippedRow]
            else SkipsStoredTo(d, rows, status, loaded, k)
  {
    assert d.order[..k + 1] == d.order[..k] + [d.order[k]];
  }

  /** What a tick that ends in `st` reports: whether the run is over and how, and what has been started. */
  ghost predicate Reports(d: Dag, st: State, ready: seq<NodeID>, broken: set<NodeID>, res: AdvanceResult) {
    && (res.done <==> AllDone(st.status))
    && res.waiting == Select(ready, Approvals(d) - broken)
    && res.dispatched == Select(ready, d.nodes.Keys - Approvals(d))
    && res.outcome == (if res.done then Some(StagesEnded(OutcomeOf(st.status))) else None)
  }

  /** What a tick of a run that is not over does to the rows and to the run, and what it returns. */
  ghost predicate Ticked(d: Dag, rows: Rows, decided: Decisions, broken: set<NodeID>, run: R.Run, now: nat,
                         rows': Rows, run': R.Run, r: Advanced)
    requires WellFormed(d)
  {
    var unmade := Refused(d, run.status, broken);
    rows' == EndRows(d, rows, decided, unmade) &&
    Ended(d, TickEnd(d, rows, decided, unmade), TickReady(d, rows, decided), unmade, run, now, run', r)
  }

  /** A tick that finds the run done gives the run its final status, and fails if the run cannot take it; otherwise the
      run takes the status approval if an approval waits. */
  ghost predicate Ended(d: Dag, end: State, ready: seq<NodeID>, unmade: set<NodeID>, run: R.Run, now: nat,
                        run': R.Run, r: Advanced)
  {
    var mark := FinalMark(OutcomeOf(end.status));
    var verdict := R.TransitionVerdict(run.status, mark);
    && run' == (if AllDone(end.status) then R.Transitioned(run, mark, now)
                else MarkedRun(run, Select(ready, Approvals(d) - unmade), now))
    && if AllDone(end.status) && !verdict.Done? then r == ErrFinalize(verdict)
       else r.Advanced? && Reports(d, end, ready, unmade, r.result)
  }

  lemma ReportsOver(d: Dag, st: State, ready: seq<NodeID>, broken: set<NodeID>, outcome: NodeStatus)
    requires AllDone(st.status) && outcome == OutcomeOf(st.status)
    ensures Reports(d, st, ready, broken,
                    AdvanceResult(true, Select(ready, d.nodes.Keys - Approvals(d)),
                                  Select(ready, Approvals(d) - broken),
                                  Some(StagesEnded(outcome))))
  {
  }

  lemma ReportsOpen(d: Dag, st: State, ready: seq<NodeID>, broken: set<NodeID>)
    requires !AllDone(st.status)
    ensures Reports(d, st, ready, broken,
                    AdvanceResult(false, Select(ready, d.nodes.Keys - Approvals(d)),
                                  Select(ready, Approvals(d) - broken),
                                  None))
  {
  }

  lemma RefusedStays(run: R.Run, now: nat)
    requires !R.TransitionVerdict(run.status, R.Approval).Done?
    ensures R.Transitioned(run, R.Approval, now) == run
  {
  }

  lemma EndedOver(d: Dag, end: State, ready: seq<NodeID>, unmade: set<NodeID>, run: R.Run, now: nat,
                  outcome: NodeStatus)
    requires AllDone(end.status) && outcome == OutcomeOf(end.status)
    ensures var verdict := R.TransitionVerdict(run.status, FinalMark(outcome));
            var res := AdvanceResult(true, Select(ready, d.nodes.Keys - Approvals(d)),
                                     Select(ready, Approvals(d) - unmade), Some(StagesEnded(outcome)));
            Ended(d, end, ready, unmade, run, now, R.Transitioned(run, FinalMark(outcome), now),
                  if verdict.Done? then Advanced(res) else ErrFinalize(verdict))
  {
    ReportsOver(d, end, ready, unmade, outcome);
    hide Reports, AllDone, OutcomeOf, R.TransitionVerdict, R.Transitioned, FinalMark;
  }

  lemma EndedOpen(d: Dag, end: State, ready: seq<NodeID>, unmade: set<NodeID>, run: R.Run, now: nat)
    requires !AllDone(end.status)
    ensures var waiting := Select(ready, Approvals(d) - unmade);
            Ended(d, end, ready, unmade, run, now, MarkedRun(run, waiting, now),
                  Advanced(AdvanceResult(false, Select(ready, d.nodes.Keys - Approvals(d)), waiting, None)))
  {
    ReportsOpen(d, end, ready, unmade);
    hide Reports, AllDone, OutcomeOf, R.TransitionVerdict, R.Transitioned, FinalMark;
  }

  lemma TickParts(d: Dag, rows: Rows, decided: Decisions, broken: set<NodeID>)
    requires WellFormed(d) && Covers(d, Rebuilt(d, Synced(rows, decided)))
    ensures var st := Rebuilt(d, Synced(rows, decided));
            && TickEnd(d, rows, decided, broken) == WithBroken(d, Next(d, st), ReadyList(d, st), broken)
            && EndRows(d, rows, decided, broken) == Handed(d, Synced(rows, decided), ReadyList(d, st), broken)
            && TickReady(d, rows, decided) == ReadyList(d, st)
  {
  }

  /** The stage rows of one run, in the order Bootstrap inserted them, which is Order. */
  class StageTable {
    const dag: Dag
    var rows: Rows

    ghost predicate Valid()
      reads this
    {
      WellFormed(dag) && RowsFor(dag, rows)
    }

    /** Bootstrap inserts one pending row for each stage. */
    constructor (d: Dag)
      requires WellFormed(d)
      ensures Valid() && dag == d && rows == InitialRows(d) == map id | id in d.nodes :: PendingRow
    {
      dag := d;
      rows := map id | id in d.nodes :: PendingRow;
    }

    method SyncApprovalStages(sch: Scheduler, loaded: Rows, decided: Decisions)
      requires Valid() && rows == loaded && sch.Valid() && sch.dag == dag
      requires sch.Current() == Rebuilt(dag, rows)
      modifies this, sch
      ensures Valid() && rows == Synced(loaded, decided)
      ensures sch.Valid() && sch.Current() == Rebuilt(dag, rows)
    {
      hide WellFormed, Rebuilt, SyncedTo, Completed, CompleteVerdict;
      OrderNodes(dag);
      SyncedNone(dag, loaded, decided);
      for k := 0 to |dag.order|
        invariant Valid() && rows == SyncedTo(dag, loaded, decided, k)
        invariant sch.Valid() && sch.Current() == Rebuilt(dag, rows)
      {
        var id := dag.order[k];
        SyncedNext(dag, loaded, decided, k);
        if loaded[id] != ApprovalRow || id !in decided {
          continue;
        }
        RebuiltUpdate(dag, rows, id, decided[id]);
        match decided[id] {
          case Approved =>
            var err := sch.Complete(id, Success);
            if err != None { continue; }
            rows := rows[id := SuccessRow];
          case Rejected | TimedOut =>
            var err := sch.Complete(id, Failed);
            if err != None { continue; }
            rows := rows[id := FailedRow];
        }
      }
      SyncedAll(dag, loaded, decided);
    }

    /** Store the skips that the scheduler knows and the loaded rows do not. */
    method MarkSkippedStages(sch: Scheduler, loaded: Rows)
      requires Valid() && RowsFor(dag, loaded)
      modifies this
      ensures rows == SkipsStored(old(rows), sch.status, loaded)
      ensures forall id :: id in rows ==>
                rows[id] == if id in sch.status && sch.status[id] == Skipped && loaded[id] == PendingRow
                            then SkippedRow else old(rows)[id]
    {
      hide WellFormed, SkipsStoredTo;
      OrderNodes(dag);
      ghost var snap := sch.status;
      SkipsStoredEnds(dag, rows, snap, loaded);
      for k := 0 to |dag.order|
        invariant rows == SkipsStoredTo(dag, old(rows), snap, loaded, k)
      {
        var id := dag.order[k];
        SkipsStoredNext(dag, old(rows), snap, loaded, k);
        if id in sch.status {
          if sch.status[id] == Skipped && loaded[id] == PendingRow {
            rows := rows[id := SkippedRow];
          }
        }
      }
    }

    /** Hand out the ready nodes: approvals wait for their request, the others are enqueued. An approval whose
        request cannot be created has failed at once. */
    method Dispatch(sch: Scheduler, run: R.RunRow, ready: seq<NodeID>, broken: set<NodeID>, now: nat)
      returns (dispatched: seq<NodeID>, waiting: seq<NodeID>)
      requires Valid() && sch.Valid() && sch.dag == dag
      requires forall id :: id in ready ==> id in dag.nodes && !sch.status[id].IsTerminal()
      modifies this, sch, run
      ensures Valid() && rows == Handed(dag, old(rows), ready, Refused(dag, old(run.status), broken))
      ensures sch.Valid()
      ensures sch.Current() == WithBroken(dag, old(sch.Current()), ready, Refused(dag, old(run.status), broken))
      ensures waiting == Select(ready, Approvals(dag) - Refused(dag, old(run.status), broken))
      ensures dispatched == Select(ready, dag.nodes.Keys - Approvals(dag))
      ensures run.Current() == MarkedRun(old(run.Current()), waiting, now)
    {
      dispatched, waiting := [], [];
      hide WellFormed, Handed, WithBroken, Completed, CompleteVerdict, R.TransitionVerdict, R.Transitioned, Refused;
      hide MarkedRun;
      ghost var st, unmade, before := sch.Current(), Refused(dag, run.status, broken), run.Current();
      HandedNone(dag, rows, st, unmade);
      MarkedNone(before, now);
      for k := 0 to |ready|
        invariant Valid() && rows == Handed(dag, old(rows), ready[..k], unmade)
        invariant sch.Valid() && sch.Current() == WithBroken(dag, st, ready[..k], unmade)
        invariant waiting == Select(ready[..k], Approvals(dag) - unmade)
        invariant dispatched == Select(ready[..k], dag.nodes.Keys - Approvals(dag))
        invariant run.Current() == MarkedRun(before, waiting, now)
        invariant waiting != [] ==> R.TransitionVerdict(before.status, R.Approval).Done?
      {
        var nodeID := ready[k];
        HandedNext(dag, old(rows), ready, unmade, k);
        BrokenNext(dag, st, ready, unmade, k);
        assert ready[..k + 1] == ready[..k] + [nodeID];
        SelectSnoc(ready[..k], nodeID, Approvals(dag) - unmade);
        SelectSnoc(ready[..k], nodeID, dag.nodes.Keys - Approvals(dag));
        if dag.nodes[nodeID].stage.kind == "approval" {
          var made := CreateApproval(run, broken, nodeID, before, waiting, now);
          if !made {
            var _ := sch.Complete(nodeID, Failed);
            rows := rows[nodeID := FailedRow];
            continue;
          }
          rows := rows[nodeID := ApprovalRow];
          waiting := waiting + [nodeID];
          continue;
        }
        rows := rows[nodeID := RunningRow];
        dispatched := dispatched + [nodeID];
      }
      assert ready[..|ready|] == ready;
    }

    /** Insert the request, unless that fails, and give the run the status approval. */
    method CreateApproval(run: R.RunRow, broken: set<NodeID>, id: NodeID, ghost before: R.Run,
                          ghost waiting: seq<NodeID>, now: nat)
      returns (made: bool)
      requires run.Current() == MarkedRun(before, waiting, now) && id in Approvals(dag)
      requires waiting != [] ==> R.TransitionVerdict(before.status, R.Approval).Done?
      modifies run
      ensures made <==> id !in Refused(dag, before.status, broken)
      ensures made ==> R.TransitionVerdict(before.status, R.Approval).Done?
      ensures run.Current() == MarkedRun(before, if made then waiting + [id] else waiting, now)
    {
      if id in broken {
        return false;
      }
      if R.TransitionVerdict(before.status, R.Approval).Done? {
        MarkedAgain(before, waiting, id, now);
      } else {
        RefusedStays(before, now);
      }
      var verdict := run.Transition(R.Approval, now);
      return verdict.Done?;
    }

    /** The status that the stages give the run. */
    method FinalizeRun(run: R.RunRow, outcome: NodeStatus, now: nat) returns (verdict: R.TransitionResult)
      modifies run
      ensures verdict == R.TransitionVerdict(old(run.status), FinalMark(outcome))
      ensures run.Current() == R.Transitioned(old(run.Current()), FinalMark(outcome), now)
    {
      match outcome {
        case Success => verdict := run.Transition(R.Success, now);
        case Failed => verdict := run.Transition(R.Failed, now);
        case Canceled => verdict := run.Transition(R.Canceled, now);
        case _ => verdict := run.Transition(R.Success, now);
      }
    }

    /** Rebuild the scheduler from the rows, poll it once, store what it hands out, and finish the run
        when every node is final. */
    method Advance(run: R.RunRow, now: nat, decided: Decisions, broken: set<NodeID>) returns (r: Advanced)
      requires Valid()
      modifies this, run
      ensures Valid()
      ensures R.IsTerminal(old(run.status)) ==>
                rows == old(rows) && run.Current() == old(run.Current()) && r == AlreadyOver(run.status)
      ensures !R.IsTerminal(old(run.status)) ==>
                Ticked(dag, old(rows), decided, broken, old(run.Current()), now, rows, run.Current(), r)
    {
      if R.IsTerminal(run.status) {
        return AlreadyOver(run.status);
      }
      hide WellFormed, Synced, Marked, SkipsStored, Sweep, Swept, Restored, Handed, WithBroken;
      hide Reports, TickEnd, EndRows, AllDone, OutcomeOf, FinalMark, Approvals, Refused, Ended;
      hide R.TransitionVerdict, R.Transitioned;
      ghost var before, unmade := run.Current(), Refused(dag, run.status, broken);
      var loaded := rows;
      var sch := new Scheduler(dag);
      sch.RestoreFromDB(loaded);
      SyncApprovalStages(sch, loaded, decided);
      TickParts(dag, loaded, decided, unmade);
      NoNewSkips(dag, loaded, decided);
      hide Next, ReadyList, TickReady, Rebuilt;
      MarkSkippedStages(sch, loaded);
      ghost var st := sch.Current();
      SweepSwept(dag, st, |dag.order|);
      ReadyNodes(dag, st, |dag.order|);
      var done := sch.Done();
      if done {
        NothingReady(dag, st, Next(dag, st), ReadyList(dag, st));
        HandedNone(dag, rows, Next(dag, st), unmade);
        var outcome := sch.Outcome();
        var verdict := FinalizeRun(run, outcome, now);
        EndedOver(dag, Next(dag, st), [], unmade, before, now, outcome);
        return if verdict.Done? then Advanced(AdvanceResult(true, [], [], Some(StagesEnded(outcome))))
               else ErrFinalize(verdict);
      }
      var ready := sch.NextReady();
      ReadyUnfinished(dag, st, Next(dag, st), ready);
      var dispatched, waiting := Dispatch(sch, run, ready, broken, now);
      if |dispatched| == 0 && |waiting| == 0 {
        done := sch.Done();
        if done {
          var outcome := sch.Outcome();
          var verdict := FinalizeRun(run, outcome, now);
          EndedOver(dag, sch.Current(), ready, unmade, before, now, outcome);
          return if verdict.Done? then Advanced(AdvanceResult(true, dispatched, waiting, Some(StagesEnded(outcome))))
                 else ErrFinalize(verdict);
        }
      } else {
        SomethingRuns(dag, st, Next(dag, st), ready, unmade);
      }
      EndedOpen(dag, sch.Current(), ready, unmade, before, now);
      return Advanced(AdvanceResult(false, dispatched, waiting, None));
    }

    /** A stage has finished: store its result, then tick. */
    method OnStageComplete(run: R.RunRow, now: nat, decided: Decisions, broken: set<NodeID>, id: NodeID, success: bool)
      returns (found: bool, r: Advanced)
      requires Valid()
      modifies this, run
      ensures Valid() && (found <==> id in old(rows))
      ensures !found ==> rows == old(rows) && run.Current() == old(run.Current())
      ensures found ==>
                var done := old(rows)[id := if success then SuccessRow else FailedRow];
                if R.IsTerminal(old(run.status))
                then rows == done && run.Current() == old(run.Current()) && r == AlreadyOver(run.status)
                else Ticked(dag, done, decided, broken, old(run.Current()), now, rows, run.Current(), r)
    {
      hide WellFormed, Completed, CompleteVerdict, Restored, Ticked;
      r := Advanced(AdvanceResult(false, [], [], None));
      if id !in rows {
        return false, r;
      }
      rows := rows[id := if success then SuccessRow else FailedRow];
      // The source also completes the stage in a scheduler of its own, which the tick does not use.
      var sch := new Scheduler(dag);
      sch.RestoreFromDB(rows);
      var _ := sch.Complete(id, if success then Success else Failed);
      r := Advance(run, now, decided, broken);
      return true, r;
    }
  }

  /** The event of a stage that ends stores its result. */
  lemma StageDoneSays(d: Dag, rows: Rows, id: NodeID, success: bool)
    requires WellFormed(d)
    ensures RowsStep(d, rows, StageDone(id, success)) == rows[id := if success then SuccessRow else FailedRow]
  {
  }

  /** Right after a restore the scheduler knows no skip that is not stored: markSkippedStages never writes. */
  lemma NoNewSkips(d: Dag, loaded: Rows, decided: Decisions)
    requires RowsFor(d, loaded)
    ensures var rows := Synced(loaded, decided);
            SkipsStored(rows, Rebuilt(d, rows).status, loaded) == rows
  {
    var rows := Synced(loaded, decided);
    RebuiltEffect(d, rows);
    forall id | id in d.nodes && Rebuilt(d, rows).status[id] == Skipped ensures loaded[id] == SkippedRow {}
    assert SkipsStored(rows, Rebuilt(d, rows).status, loaded) == rows;
  }

  /** When everything is final already a poll changes nothing. */
  lemma NothingReady(d: Dag, before: State, after: State, ready: seq<NodeID>)
    requires Covers(d, before) && Covers(d, after) && AllDone(before.status)
    requires Swept(d, before, after, ready) && forall id :: id in ready ==> id in d.nodes
    ensures ready == [] && after.status == before.status
  {
    NonEmpty(ready);
    assert forall id :: id in d.nodes ==> after.status[id] == before.status[id];
  }

  lemma ReadyUnfinished(d: Dag, before: State, after: State, ready: seq<NodeID>)
    requires Covers(d, before) && Covers(d, after) && Swept(d, before, after, ready)
    requires forall id :: id in ready ==> id in d.nodes
    ensures forall id :: id in ready ==> !after.status[id].IsTerminal()
  {
  }

  lemma SomethingRuns(d: Dag, before: State, after: State, ready: seq<NodeID>, broken: set<NodeID>)
    requires Covers(d, before) && Covers(d, after) && Swept(d, before, after, ready)
    requires Select(ready, Approvals(d) - broken) != [] || Select(ready, d.nodes.Keys - Approvals(d)) != []
    ensures !AllDone(WithBroken(d, after, ready, broken).status)
  {
    var chosen := if Select(ready, Approvals(d) - broken) != [] then Approvals(d) - broken
                  else d.nodes.Keys - Approvals(d);
    var id := Select(ready, chosen)[0];
    assert id in Select(ready, chosen);
    assert !WithBroken(d, after, ready, broken).status[id].IsTerminal();
  }

  // ---- A broken approval as an event of its own ----

  function Brokes(ids: seq<NodeID>): seq<Event> {
    seq(|ids|, i requires 0 <= i < |ids| => Broke(ids[i]))
  }

  /** The rows once the approvals `ids` have broken. */
  function BrokenRows(rows: Rows, ids: seq<NodeID>): Rows {
    map id | id in rows :: if id in ids then FailedRow else rows[id]
  }

  lemma {:induction false} BrokesApply(d: Dag, rows: Rows, ids: seq<NodeID>, k: nat)
    requires WellFormed(d) && Distinct(ids) && k <= |ids|
    requires forall id :: id in ids ==> id in rows && rows[id] == ApprovalRow
    ensures Possible(d, rows, Brokes(ids)[..k]) && RowsAfter(d, rows, Brokes(ids)[..k]) == BrokenRows(rows, ids[..k])
  {
    hide WellFormed;
    if k > 0 {
      BrokesApply(d, rows, ids, k - 1);
      assert Brokes(ids)[..k][..k - 1] == Brokes(ids)[..k - 1] && Brokes(ids)[..k][k - 1] == Broke(ids[k - 1]);
      assert ids[..k] == ids[..k - 1] + [ids[k - 1]] && ids[k - 1] !in ids[..k - 1];
    }
  }

  /** A tick in which approvals break is a tick in which none does, followed by their breaking. */
  lemma BrokenTickIsEvents(d: Dag, rows: Rows, decided: Decisions, broken: set<NodeID>) returns (brokes: seq<Event>)
    requires WellFormed(d) && RowsFor(d, rows)
    ensures Possible(d, TickRows(d, rows, decided), brokes)
    ensures RowsAfter(d, TickRows(d, rows, decided), brokes) == EndRows(d, rows, decided, broken)
  {
    hide *;
    var ready := TickReady(d, rows, decided);
    var ids := BrokenIDs(d, ready, broken);
    EndKeys(d, rows, decided, broken);
    forall id | id in d.nodes {
      EndRow(d, rows, decided, broken, id);
    }
    BrokesApply(d, TickRows(d, rows, decided), ids, |ids|);
    AllBrokes(ids);
    BrokenRowsAre(TickRows(d, rows, decided), ids, EndRows(d, rows, decided, broken));
    brokes := Brokes(ids);
  }

  lemma BrokenIDs(d: Dag, ready: seq<NodeID>, broken: set<NodeID>) returns (ids: seq<NodeID>)
    requires WellFormed(d)
    ensures Distinct(ids) && forall id :: id in ids <==> id in d.nodes && Breaks(d, ready, broken, id)
  {
    OrderNodes(d);
    hide WellFormed, Breaks;
    var chosen := set id | id in d.nodes && Breaks(d, ready, broken, id);
    ids := Select(d.order, chosen);
    SelectDistinct(d.order, chosen);
  }

  lemma BrokenRowsAre(rows: Rows, ids: seq<NodeID>, rows': Rows)
    requires rows.Keys == rows'.Keys
    requires forall id :: id in rows ==> rows'[id] == if id in ids then FailedRow else rows[id]
    ensures BrokenRows(rows, ids) == rows'
  {
  }

  lemma AllBrokes(ids: seq<NodeID>)
    ensures |Brokes(ids)| == |ids| && Brokes(ids)[..|ids|] == Brokes(ids) && ids[..|ids|] == ids
  {
  }

  lemma EndKeys(d: Dag, rows: Rows, decided: Decisions, broken: set<NodeID>)
    requires WellFormed(d) && RowsFor(d, rows)
    ensures TickRows(d, rows, decided).Keys == EndRows(d, rows, decided, broken).Keys == d.nodes.Keys
  {
    hide WellFormed, TickReady;
  }

  lemma EndRow(d: Dag, rows: Rows, decided: Decisions, broken: set<NodeID>, id: NodeID)
    requires WellFormed(d) && RowsFor(d, rows) && id in d.nodes
    ensures id in TickRows(d, rows, decided) && id in EndRows(d, rows, decided, broken)
    ensures Breaks(d, TickReady(d, rows, decided), broken, id) ==> TickRows(d, rows, decided)[id] == ApprovalRow
    ensures EndRows(d, rows, decided, broken)[id] ==
            if Breaks(d, TickReady(d, rows, decided), broken, id) then FailedRow else TickRows(d, rows, decided)[id]
  {
    hide WellFormed, TickReady;
  }

  // ---- A tick after which nothing runs, with an approval broken ----

  /** Nothing runs or waits after the tick: then the run is over exactly if no stage needs an approval that broke.
      Otherwise that stage stays pending, and no event is left that could cause another tick. */
  lemma BrokenStallsExactly(d: Dag, events: seq<Event>, decided: Decisions, broken: set<NodeID>)
    requires WellFormed(d) && Acyclic(d.Needs()) && SkipOrdered(d) && Possible(d, InitialRows(d), events)
    requires TickEnd(d, RowsAfter(d, InitialRows(d), events), decided, broken).dispatched == {}
    ensures var rows := RowsAfter(d, InitialRows(d), events);
            AllDone(TickEnd(d, rows, decided, broken).status) <==>
            !exists id, u :: BrokenNeed(d, TickReady(d, rows, decided), broken, id, u)
  {
    hide WellFormed, Coherent, SkipOrdered, AllDone, Acyclic, WithBroken, BrokenNeed, TickState, TickReady;
    TicksRefine(d, events, decided);
    StallsExactly(d, Resolved(d, LongAfter(d, events), decided, |d.order|), broken);
  }

  ghost predicate BrokenNeed(d: Dag, ready: seq<NodeID>, broken: set<NodeID>, id: NodeID, u: NodeID) {
    id in d.nodes && u in d.nodes[id].ins && Breaks(d, ready, broken, u)
  }

  lemma StallsExactly(d: Dag, st: State, broken: set<NodeID>)
    requires WellFormed(d) && Acyclic(d.Needs()) && SkipOrdered(d) && Coherent(d, st)
    requires WithBroken(d, Next(d, st), ReadyList(d, st), broken).dispatched == {}
    ensures AllDone(WithBroken(d, Next(d, st), ReadyList(d, st), broken).status) <==>
            !exists id, u :: BrokenNeed(d, ReadyList(d, st), broken, id, u)
  {
    var ready, end := ReadyList(d, st), WithBroken(d, Next(d, st), ReadyList(d, st), broken);
    if id, u :| BrokenNeed(d, ready, broken, id, u) {
      BrokenNeedWaits(d, st, broken, id, u);
    } else if id :| id in end.status && !end.status[id].IsTerminal() {
      var x, u := UnsettledNeed(d, st, broken, id);
    }
  }

  /** A stage with a broken need is left pending. */
  lemma BrokenNeedWaits(d: Dag, st: State, broken: set<NodeID>, id: NodeID, u: NodeID)
    requires WellFormed(d) && Coherent(d, st) && BrokenNeed(d, ReadyList(d, st), broken, id, u)
    ensures var end := WithBroken(d, Next(d, st), ReadyList(d, st), broken);
            id in end.status && !end.status[id].IsTerminal()
  {
    SweepCoherent(d, st, |d.order|);
    SweepSwept(d, st, |d.order|);
    JustifiedAt(d, Next(d, st), id);
    Neighbours(d, id);
    hide WellFormed, Coherent, Decide, Next, ReadyList;
    assert !Finished(Next(d, st).status, u);
    assert Next(d, st).status[id] == Pending;
  }

  /** A stage that is not final after the tick leads to one with a broken need. */
  lemma UnsettledNeed(d: Dag, st: State, broken: set<NodeID>, id: NodeID) returns (x: NodeID, u: NodeID)
    requires WellFormed(d) && Acyclic(d.Needs()) && SkipOrdered(d) && Coherent(d, st)
    requires var end := WithBroken(d, Next(d, st), ReadyList(d, st), broken);
             end.dispatched == {} && id in end.status && id in Next(d, st).status && !end.status[id].IsTerminal()
    ensures BrokenNeed(d, ReadyList(d, st), broken, x, u)
  {
    SweepCoherent(d, st, |d.order|);
    hide WellFormed, Coherent, Acyclic, SkipOrdered, Next, ReadyList, WithBroken, BrokenNeed;
    EndPending(d, Next(d, st), ReadyList(d, st), broken, id);
    x := DeepestPending(d, Next(d, st), id);
    SweepExhausts(d, st, x);
    u :| u in d.nodes[x].ins && !Finished(Next(d, st).status, u);
    EndBroken(d, Next(d, st), ReadyList(d, st), broken, u);
    BrokenNeedOf(d, ReadyList(d, st), broken, x, u);
  }

  lemma BrokenNeedOf(d: Dag, ready: seq<NodeID>, broken: set<NodeID>, x: NodeID, u: NodeID)
    requires x in d.nodes && u in d.nodes[x].ins && Breaks(d, ready, broken, u)
    ensures BrokenNeed(d, ready, broken, x, u)
  {
  }

  lemma EndPending(d: Dag, st: State, ready: seq<NodeID>, broken: set<NodeID>, id: NodeID)
    requires WellFormed(d) && Coherent(d, st) && WithBroken(d, st, ready, broken).dispatched == {}
    requires id in st.status && !WithBroken(d, st, ready, broken).status[id].IsTerminal()
    ensures st.status[id] == Pending
  {
    CoherentTracks(d, st);
    EndTells(d, st, ready, broken, id);
    hide WellFormed, Coherent, WithBroken, Breaks;
  }

  lemma EndBroken(d: Dag, st: State, ready: seq<NodeID>, broken: set<NodeID>, u: NodeID)
    requires WellFormed(d) && Coherent(d, st) && WithBroken(d, st, ready, broken).dispatched == {}
    requires u in d.nodes && st.status[u] != Pending && !Finished(st.status, u)
    ensures Breaks(d, ready, broken, u)
  {
    CoherentTracks(d, st);
    EndTells(d, st, ready, broken, u);
    hide WellFormed, Coherent, WithBroken, Breaks;
  }

  lemma EndTells(d: Dag, st: State, ready: seq<NodeID>, broken: set<NodeID>, id: NodeID)
    requires WithBroken(d, st, ready, broken).dispatched == {} && id in st.status
    ensures id in st.dispatched ==> Breaks(d, ready, broken, id)
    ensures WithBroken(d, st, ready, broken).status[id] ==
            if Breaks(d, ready, broken, id) then Failed else st.status[id]
  {
    hide Breaks;
    assert id in WithBroken(d, st, ready, broken).dispatched <==> id in st.dispatched && !Breaks(d, ready, broken, id);
  }

  lemma FreshTick(d: Dag)
    requires WellFormed(d)
    ensures Rebuilt(d, Synced(InitialRows(d), map[])) == Initial(d)
  {
    hide WellFormed;
    var rows := Synced(InitialRows(d), map[]);
    RebuiltEffect(d, rows);
    assert Rebuilt(d, rows).status == Initial(d).status;
    assert Rebuilt(d, rows).dispatched == {};
  }

  lemma TwoVisits(d: Dag, x: NodeID, y: NodeID, next: State)
    requires d.nodes.Keys == {x, y} && x != y && d.nodes[x].ins == [] && d.nodes[y].ins == [x]
    requires IsApproval(d.nodes[x]) && !OnFailure(d.nodes[x])
    requires next == State(Initial(d).status[x := WaitingApproval], {x})
    ensures Visit(d, Initial(d), x) == (next, [x]) && Visit(d, next, y) == (next, [])
  {
    hide IsApproval, OnFailure;
    assert Dispatched(d.nodes[x]) == WaitingApproval;
    assert {} + {x} == {x};
    assert x in d.nodes[y].ins && !Finished(next.status, x);
    assert Decide(d.nodes[y], next.status) == Pending;
  }

  lemma TwoSweeps(d: Dag, x: NodeID, y: NodeID, next: State)
    requires d.order == [x, y] && d.nodes.Keys == {x, y} && Covers(d, next)
    requires Visit(d, Initial(d), x) == (next, [x]) && Visit(d, next, y) == (next, [])
    ensures Sweep(d, Initial(d), 2) == (next, [x])
  {
    var st := Initial(d);
    hide Visit;
    assert d.order[0] == x && d.order[1] == y;
    assert Sweep(d, st, 0) == (st, []);
    assert [] + [x] == [x] && [x] + [] == [x];
    assert Sweep(d, st, 1) == (next, [x]);
  }

  /** Two stages are enough: an approval that breaks in the first tick, and a stage that needs it. */
  lemma BrokenApprovalStalls(d: Dag, x: NodeID, y: NodeID)
    requires WellFormed(d) && d.order == [x, y] && d.nodes.Keys == {x, y}
    requires d.nodes[x].ins == [] && d.nodes[y].ins == [x] && IsApproval(d.nodes[x]) && !OnFailure(d.nodes[x])
    ensures var end := TickEnd(d, InitialRows(d), map[], {x});
            end.dispatched == {} && !AllDone(end.status)
  {
    var st := Initial(d);
    OrderNodes(d);
    FreshTick(d);
    hide WellFormed, Synced, Rebuilt, InitialRows;
    var next := State(st.status[x := WaitingApproval], {x});
    TwoVisits(d, x, y, next);
    TwoSweeps(d, x, y, next);
    TickParts(d, InitialRows(d), map[], {x});
    hide TickEnd, Sweep, Visit;
    var end := WithBroken(d, next, [x], {x});
    assert Breaks(d, [x], {x}, x) && !Breaks(d, [x], {x}, y);
    assert end.status[y] == Pending && end.dispatched == {};
  }
}
