/** What one tick does, said on the rows. */
module TickResults {
  import opened Sequences
  import opened Digraphs
  import opened Pipelines
  import opened Dags
  import opened Schedulers
  import opened Runs
  import opened Ticks
  import opened Conditions
  import opened Orchestrate
  import R = RunStates

  // Advance in api/pkg/runengine/orchestrate.go: which row every stage gets, what is handed out, and which status the
  // run takes. `Ticked` says it in the terms of the scheduler's functions. The lemmas here say it on the rows, the
  // decisions, the `if` texts and the statuses of the needs.

  /** The scheduler with which the tick polls. */
  function Polled(d: Dag, rows: Rows, decided: Decisions): State {
    Rebuilt(d, Synced(rows, decided))
  }

  lemma PolledFits(d: Dag, rows: Rows, decided: Decisions)
    requires RowsFor(d, rows)
    ensures Covers(d, Polled(d, rows, decided)) && Apart(Polled(d, rows, decided))
  {
    RebuiltApart(d, Synced(rows, decided));
  }

  /** The tick reads the statuses from the rows, and the decisions of waiting approvals instead of their rows. */
  lemma PolledSays(d: Dag, rows: Rows, decided: Decisions, id: NodeID)
    requires RowsFor(d, rows) && id in d.nodes
    ensures id in Polled(d, rows, decided).status
    ensures Polled(d, rows, decided).status[id] ==
            match rows[id]
            case SuccessRow => Success
            case FailedRow => Failed
            case SkippedRow => Skipped
            case CanceledRow => Canceled
            case RunningRow => Running
            case ApprovalRow =>
              if id !in decided then WaitingApproval else if decided[id] == Approved then Success else Failed
            case PendingRow | OtherRow(_) => Pending
  {
    RebuiltEffect(d, Synced(rows, decided));
  }

  /** The stage is pending and its needs let it run: the tick hands it out. */
  ghost predicate HandedOut(d: Dag, rows: Rows, decided: Decisions, id: NodeID)
    requires WellFormed(d) && RowsFor(d, rows) && id in d.nodes
  {
    PolledFits(d, rows, decided);
    var met := Met(d, Polled(d, rows, decided), id);
    && (rows[id] == PendingRow || rows[id].OtherRow?)
    && AllFinal(d.nodes[id].ins, met) && MayRun(d.nodes[id].stage.cond, d.nodes[id].ins, met)
  }

  lemma PolledPending(d: Dag, rows: Rows, decided: Decisions, id: NodeID)
    requires RowsFor(d, rows) && id in d.nodes
    ensures id in Polled(d, rows, decided).status
    ensures Polled(d, rows, decided).status[id] == Pending <==> rows[id] == PendingRow || rows[id].OtherRow?
  {
    PolledSays(d, rows, decided, id);
    hide Polled;
  }

  lemma TickPolls(d: Dag, rows: Rows, decided: Decisions)
    requires WellFormed(d) && RowsFor(d, rows)
    ensures Covers(d, Polled(d, rows, decided))
    ensures TickReady(d, rows, decided) == ReadyList(d, Polled(d, rows, decided))
    ensures TickState(d, rows, decided) == Next(d, Polled(d, rows, decided))
  {
    PolledFits(d, rows, decided);
    hide WellFormed, Synced, Rebuilt, Next, ReadyList;
  }

  lemma ReadySays(d: Dag, rows: Rows, decided: Decisions, id: NodeID)
    requires WellFormed(d) && RowsFor(d, rows) && id in d.nodes
    ensures id in TickReady(d, rows, decided) <==> HandedOut(d, rows, decided, id)
  {
    hide Covers, Apart, Met, AllFinal, MayRun, Polled, Synced, Rebuilt, Next, ReadyList, TickReady;
    PolledFits(d, rows, decided);
    PolledPending(d, rows, decided, id);
    TickPolls(d, rows, decided);
    PollSays(d, Polled(d, rows, decided), id);
  }

  /** The request cannot be created, or the run cannot take the status approval. */
  predicate NoRequest(run: R.RunStatus, broken: set<NodeID>, id: NodeID) {
    id in broken || run !in {R.Running, R.Approval}
  }

  lemma RefusedSays(d: Dag, run: R.RunStatus, broken: set<NodeID>, id: NodeID)
    requires id in d.nodes && d.nodes[id].stage.kind == "approval"
    ensures id in Refused(d, run, broken) <==> NoRequest(run, broken, id)
  {
  }

  lemma HandedSays(d: Dag, rows: Rows, decided: Decisions, ready: seq<NodeID>, run: R.RunStatus, broken: set<NodeID>,
                   id: NodeID)
    requires id in d.nodes && id in rows
    ensures id in Handed(d, Synced(rows, decided), ready, Refused(d, run, broken))
    ensures Handed(d, Synced(rows, decided), ready, Refused(d, run, broken))[id] ==
            if id in ready then
              if d.nodes[id].stage.kind != "approval" then RunningRow
              else if NoRequest(run, broken, id) then FailedRow
              else ApprovalRow
            else if rows[id] == ApprovalRow && id in decided then
              if decided[id] == Approved then SuccessRow else FailedRow
            else rows[id]
  {
    if d.nodes[id].stage.kind == "approval" {
      RefusedSays(d, run, broken, id);
    }
    hide Refused, NoRequest;
  }

  /** The row of a stage after a tick. */
  lemma RowSays(d: Dag, rows: Rows, decided: Decisions, broken: set<NodeID>, run: R.Run, now: nat,
                rows': Rows, run': R.Run, r: Advanced, id: NodeID)
    requires WellFormed(d) && RowsFor(d, rows) && id in d.nodes
    requires Ticked(d, rows, decided, broken, run, now, rows', run', r)
    ensures id in rows'
    ensures rows'[id] ==
            if HandedOut(d, rows, decided, id) then
              if d.nodes[id].stage.kind != "approval" then RunningRow
              else if NoRequest(run.status, broken, id) then FailedRow
              else ApprovalRow
            else if rows[id] == ApprovalRow && id in decided then
              if decided[id] == Approved then SuccessRow else FailedRow
            else rows[id]
  {
    hide WellFormed, Ticked, TickReady, Handed, HandedOut, NoRequest, Synced;
    TickedRows(d, rows, decided, broken, run, now, rows', run', r);
    ReadySays(d, rows, decided, id);
    HandedSays(d, rows, decided, TickReady(d, rows, decided), run.status, broken, id);
  }

  lemma TickedRows(d: Dag, rows: Rows, decided: Decisions, broken: set<NodeID>, run: R.Run, now: nat,
                   rows': Rows, run': R.Run, r: Advanced)
    requires WellFormed(d) && Ticked(d, rows, decided, broken, run, now, rows', run', r)
    ensures rows' == Handed(d, Synced(rows, decided), TickReady(d, rows, decided), Refused(d, run.status, broken))
  {
    hide WellFormed, TickReady, Ended, Handed;
  }

  /** What a tick returns: the stages handed out, apart from those whose request could not be created. */
  lemma ResultSays(d: Dag, rows: Rows, decided: Decisions, broken: set<NodeID>, run: R.Run, now: nat,
                   rows': Rows, run': R.Run, r: Advanced, id: NodeID)
    requires WellFormed(d) && RowsFor(d, rows) && id in d.nodes && r.Advanced?
    requires Ticked(d, rows, decided, broken, run, now, rows', run', r)
    ensures id in r.result.dispatched <==> HandedOut(d, rows, decided, id) && d.nodes[id].stage.kind != "approval"
    ensures id in r.result.waiting <==>
            && HandedOut(d, rows, decided, id) && d.nodes[id].stage.kind == "approval"
            && !NoRequest(run.status, broken, id)
  {
    hide WellFormed, Ticked, TickReady, HandedOut, NoRequest, Refused, Approvals;
    TickedLists(d, rows, decided, broken, run, now, rows', run', r);
    ReadySays(d, rows, decided, id);
    ApprovalsSay(d, id);
    if d.nodes[id].stage.kind == "approval" {
      RefusedSays(d, run.status, broken, id);
    }
  }

  lemma ApprovalsSay(d: Dag, id: NodeID)
    requires id in d.nodes
    ensures id in Approvals(d) <==> d.nodes[id].stage.kind == "approval"
  {
  }

  lemma TickedLists(d: Dag, rows: Rows, decided: Decisions, broken: set<NodeID>, run: R.Run, now: nat,
                    rows': Rows, run': R.Run, r: Advanced)
    requires WellFormed(d) && r.Advanced? && Ticked(d, rows, decided, broken, run, now, rows', run', r)
    ensures r.result.waiting == Select(TickReady(d, rows, decided), Approvals(d) - Refused(d, run.status, broken))
    ensures r.result.dispatched == Select(TickReady(d, rows, decided), d.nodes.Keys - Approvals(d))
  {
    hide WellFormed, TickReady, TickEnd, EndRows, Approvals, Refused;
  }

  /** Both lists are in the order of the stages. */
  lemma ResultInOrder(d: Dag, rows: Rows, decided: Decisions, broken: set<NodeID>, run: R.Run, now: nat,
                      rows': Rows, run': R.Run, r: Advanced)
    requires WellFormed(d) && RowsFor(d, rows) && r.Advanced?
    requires Ticked(d, rows, decided, broken, run, now, rows', run', r)
    ensures InOrder(d, r.result.dispatched, |d.order|) && InOrder(d, r.result.waiting, |d.order|)
  {
    hide WellFormed, Ticked, TickReady, InOrder, ReadyList, Refused, Approvals;
    TickedLists(d, rows, decided, broken, run, now, rows', run', r);
    TickPolls(d, rows, decided);
    PollLists(d, Polled(d, rows, decided));
    SelectInOrder(d, TickReady(d, rows, decided), Approvals(d) - Refused(d, run.status, broken), |d.order|);
    SelectInOrder(d, TickReady(d, rows, decided), d.nodes.Keys - Approvals(d), |d.order|);
  }

  lemma {:induction false} SelectInOrder(d: Dag, ready: seq<NodeID>, keep: set<NodeID>, k: nat)
    requires WellFormed(d) && InOrder(d, ready, k)
    ensures InOrder(d, Select(ready, keep), k)
  {
    hide WellFormed;
    if ready != [] {
      var t, x := ready[..|ready| - 1], ready[|ready| - 1];
      SelectInOrder(d, t, keep, k);
      forall y | y in Select(t, keep) ensures y in d.nodes && Position(d, y) < Position(d, x) {
        var i :| 0 <= i < |t| && t[i] == y;
        assert ready[i] == y;
      }
    }
  }

  // ---- The run ----

  /** A failed or canceled stage is stored as such. */
  lemma StatusStored(d: Dag, rows: Rows, decided: Decisions, unmade: set<NodeID>, id: NodeID)
    requires WellFormed(d) && RowsFor(d, rows) && id in d.nodes
    ensures id in TickEnd(d, rows, decided, unmade).status && id in EndRows(d, rows, decided, unmade)
    ensures TickEnd(d, rows, decided, unmade).status[id] == Failed <==>
            EndRows(d, rows, decided, unmade)[id] == FailedRow
    ensures TickEnd(d, rows, decided, unmade).status[id] == Canceled <==>
            EndRows(d, rows, decided, unmade)[id] == CanceledRow
  {
    TickPolls(d, rows, decided);
    SweepSwept(d, Polled(d, rows, decided), |d.order|);
    SweptStatus(d, Synced(rows, decided), TickState(d, rows, decided), TickReady(d, rows, decided), unmade, id);
    hide WellFormed, Handed, WithBroken, TickState, TickReady;
  }

  lemma SweptStatus(d: Dag, rows: Rows, after: State, ready: seq<NodeID>, unmade: set<NodeID>, id: NodeID)
    requires RowsFor(d, rows) && Covers(d, after) && id in d.nodes && Swept(d, Rebuilt(d, rows), after, ready)
    ensures id in WithBroken(d, after, ready, unmade).status && id in Handed(d, rows, ready, unmade)
    ensures WithBroken(d, after, ready, unmade).status[id] == Failed <==>
            Handed(d, rows, ready, unmade)[id] == FailedRow
    ensures WithBroken(d, after, ready, unmade).status[id] == Canceled <==>
            Handed(d, rows, ready, unmade)[id] == CanceledRow
  {
    RebuiltEffect(d, rows);
    hide Rebuilt;
  }

  ghost predicate SomeRow(rows: Rows, row: RowStatus) {
    exists id :: id in rows && rows[id] == row
  }

  lemma TickedEnd(d: Dag, rows: Rows, decided: Decisions, broken: set<NodeID>, run: R.Run, now: nat,
                  rows': Rows, run': R.Run, r: Advanced)
    requires WellFormed(d) && RowsFor(d, rows) && Ticked(d, rows, decided, broken, run, now, rows', run', r)
    ensures var unmade := Refused(d, run.status, broken);
            && rows' == EndRows(d, rows, decided, unmade)
            && Ended(d, TickEnd(d, rows, decided, unmade), TickReady(d, rows, decided), unmade, run, now, run', r)
  {
    hide WellFormed, TickReady, TickEnd, EndRows, Ended;
  }

  lemma EndStored(d: Dag, rows: Rows, decided: Decisions, unmade: set<NodeID>)
    requires WellFormed(d) && RowsFor(d, rows)
    ensures StoresAs(TickEnd(d, rows, decided, unmade).status, EndRows(d, rows, decided, unmade))
  {
    EndCovers(d, rows, decided, unmade);
    hide WellFormed, TickEnd, EndRows;
    forall id | id in d.nodes {
      StatusStored(d, rows, decided, unmade, id);
    }
  }

  lemma EndCovers(d: Dag, rows: Rows, decided: Decisions, unmade: set<NodeID>)
    requires WellFormed(d) && RowsFor(d, rows)
    ensures TickEnd(d, rows, decided, unmade).status.Keys == EndRows(d, rows, decided, unmade).Keys == d.nodes.Keys
  {
    TickPolls(d, rows, decided);
    hide WellFormed, TickReady;
  }

  ghost predicate StoresAs(status: Statuses, rows: Rows) {
    && status.Keys == rows.Keys
    && forall id :: id in rows ==>
         (status[id] == Failed <==> rows[id] == FailedRow) && (status[id] == Canceled <==> rows[id] == CanceledRow)
  }

  lemma MarkSays(status: Statuses, rows: Rows)
    requires StoresAs(status, rows)
    ensures FinalMark(OutcomeOf(status)) == if SomeRow(rows, FailedRow) then R.Failed
                                            else if SomeRow(rows, CanceledRow) then R.Canceled
                                            else R.Success
  {
  }

  /** The run can take the final status that these rows give it. */
  predicate TakesEnd(run: R.RunStatus, failed: bool, canceled: bool) {
    match run
    case Running => true
    case Approval => failed || canceled
    case Pending => canceled && !failed
    case Failed => failed
    case Canceled => canceled && !failed
    case Success => !failed && !canceled
    case Timeout => false
  }

  lemma TakesSays(run: R.RunStatus, rows: Rows, mark: R.RunStatus)
    requires mark == if SomeRow(rows, FailedRow) then R.Failed
                     else if SomeRow(rows, CanceledRow) then R.Canceled
                     else R.Success
    ensures R.TransitionVerdict(run, mark).Done? <==>
            TakesEnd(run, SomeRow(rows, FailedRow), SomeRow(rows, CanceledRow))
  {
    hide SomeRow;
  }

  lemma VerdictSays(run: R.Run, to: R.RunStatus, now: nat)
    ensures R.TransitionVerdict(run.status, to).Done? ==> R.Transitioned(run, to, now).status == to
    ensures !R.TransitionVerdict(run.status, to).Done? ==> R.Transitioned(run, to, now) == run
  {
  }

  lemma EndedSays(d: Dag, end: State, ready: seq<NodeID>, unmade: set<NodeID>, run: R.Run, now: nat,
                  run': R.Run, r: Advanced)
    requires Ended(d, end, ready, unmade, run, now, run', r)
    ensures var over := forall id :: id in end.status ==> end.status[id] in {Success, Failed, Skipped, Canceled};
            && (over <==> r.ErrFinalize? || r.result.done)
    ensures r.Advanced? && r.result.done ==> run'.status == FinalMark(OutcomeOf(end.status))
    ensures r.ErrFinalize? ==> run' == run && AllDone(end.status)
    ensures AllDone(end.status) ==>
              (r.ErrFinalize? <==> !R.TransitionVerdict(run.status, FinalMark(OutcomeOf(end.status))).Done?)
    ensures r.Advanced? && !r.result.done ==>
              r.result.waiting == Select(ready, Approvals(d) - unmade) && run' == MarkedRun(run, r.result.waiting, now)
  {
    hide OutcomeOf, FinalMark, Approvals, MarkedRun, R.TransitionVerdict, R.Transitioned;
    VerdictSays(run, FinalMark(OutcomeOf(end.status)), now);
  }

  /** A tick after which every stage is final ends the run, if the run can take the status: it has failed exactly if
      some stage has, otherwise it is canceled exactly if some stage is, and otherwise it has succeeded. Before that
      it takes the status approval exactly if a request has been created. */
  lemma RunSays(d: Dag, rows: Rows, decided: Decisions, broken: set<NodeID>, run: R.Run, now: nat,
                rows': Rows, run': R.Run, r: Advanced)
    requires WellFormed(d) && RowsFor(d, rows)
    requires Ticked(d, rows, decided, broken, run, now, rows', run', r)
    ensures var end := TickEnd(d, rows, decided, Refused(d, run.status, broken)).status;
            var over := forall id :: id in end ==> end[id] in {Success, Failed, Skipped, Canceled};
            && (over <==> r.ErrFinalize? || r.result.done)
            && (r.ErrFinalize? <==>
                over && !TakesEnd(run.status, SomeRow(rows', FailedRow), SomeRow(rows', CanceledRow)))
    ensures r.Advanced? && r.result.done ==>
              run'.status == if SomeRow(rows', FailedRow) then R.Failed
                             else if SomeRow(rows', CanceledRow) then R.Canceled
                             else R.Success
    ensures r.Advanced? && !r.result.done ==>
              run'.status == if r.result.waiting == [] then run.status else R.Approval
    ensures r.ErrFinalize? ==> run' == run
  {
    hide WellFormed, Ticked, TickEnd, TickReady, EndRows, Ended, Refused, StoresAs, SomeRow, Approvals, MarkedRun;
    hide FinalMark, OutcomeOf, Select, TakesEnd, R.TransitionVerdict;
    var unmade := Refused(d, run.status, broken);
    TickedEnd(d, rows, decided, broken, run, now, rows', run', r);
    EndedSays(d, TickEnd(d, rows, decided, unmade), TickReady(d, rows, decided), unmade, run, now, run', r);
    EndStored(d, rows, decided, unmade);
    MarkSays(TickEnd(d, rows, decided, unmade).status, rows');
    TakesSays(run.status, rows', FinalMark(OutcomeOf(TickEnd(d, rows, decided, unmade).status)));
    WaitingSays(d, TickReady(d, rows, decided), run, broken, now);
  }

  lemma WaitingSays(d: Dag, ready: seq<NodeID>, run: R.Run, broken: set<NodeID>, now: nat)
    ensures var waiting := Select(ready, Approvals(d) - Refused(d, run.status, broken));
            MarkedRun(run, waiting, now).status == if waiting == [] then run.status else R.Approval
  {
    var waiting := Select(ready, Approvals(d) - Refused(d, run.status, broken));
    if waiting != [] {
      assert waiting[0] in waiting;
      VerdictSays(run, R.Approval, now);
    }
  }
}
