/** When ticks can finish a run: exactly when no stage is listed before a need that is skipped. */
module TickLiveness {
  import opened Sequences
  import opened Digraphs
  import opened Pipelines
  import opened Dags
  import opened Schedulers
  import opened Runs
  import opened Ticks

  /** Stored completions are successes and failures. */
  predicate TwoOutcomes(d: Dag, o: Statuses) {
    forall id :: id in d.nodes ==> id in o && o[id] in {Success, Failed}
  }

  predicate EventFollows(e: Event, o: Statuses) {
    match e
    case Tick(decided) => forall id :: id in decided && id in o ==> VerdictStatus(decided[id]) == o[id]
    case StageDone(id, success) => id in o && o[id] == DoneStatus(success)
    case Broke(id) => id in o && o[id] == Failed
  }

  predicate EventsFollow(events: seq<Event>, o: Statuses) {
    forall i :: 0 <= i < |events| ==> EventFollows(events[i], o)
  }

  /** A tick with these decisions, after these events, finds every node final. */
  ghost predicate Finishes(d: Dag, o: Statuses, events: seq<Event>, decided: Decisions)
    requires WellFormed(d)
  {
    && Possible(d, InitialRows(d), events)
    && EventsFollow(events, o) && EventFollows(Tick(decided), o)
    && AllDone(TickState(d, RowsAfter(d, InitialRows(d), events), decided).status)
  }

  ghost predicate CanFinish(d: Dag, o: Statuses)
    requires WellFormed(d)
  {
    exists events, decided :: Finishes(d, o, events, decided)
  }

  // ---- What every tick gets right, in any Order ----

  /** A final status is the one of Final, and only a node that Final lets run is handed out. */
  ghost predicate TruthfulStatus(d: Dag, o: Statuses, id: NodeID, s: NodeStatus)
    requires WellFormed(d) && Acyclic(d.Needs()) && OutcomesFor(d, o) && id in d.nodes
  {
    && s != Ready
    && (s.IsTerminal() ==> s == Final(d, o, id))
    && (s in {Running, WaitingApproval} ==> Final(d, o, id) == o[id])
  }

  ghost predicate Truthful(d: Dag, o: Statuses, st: State)
    requires WellFormed(d) && Acyclic(d.Needs()) && OutcomesFor(d, o)
  {
    Covers(d, st) && forall id :: id in d.nodes ==> TruthfulStatus(d, o, id, st.status[id])
  }

  /** A stored row is of a node that runs, with its outcome if complete. */
  ghost predicate TruthfulRow(d: Dag, o: Statuses, id: NodeID, row: RowStatus)
    requires WellFormed(d) && Acyclic(d.Needs()) && OutcomesFor(d, o) && id in d.nodes
  {
    && (FromRow(row) != Pending ==> Final(d, o, id) == o[id])
    && (FromRow(row).IsTerminal() ==> FromRow(row) == o[id])
  }

  ghost predicate TruthfulRows(d: Dag, o: Statuses, rows: Rows)
    requires WellFormed(d) && Acyclic(d.Needs()) && OutcomesFor(d, o)
  {
    RowsFor(d, rows) && forall id :: id in d.nodes ==> TruthfulRow(d, o, id, rows[id])
  }

  lemma VisitTruthful(d: Dag, o: Statuses, st: State, id: NodeID)
    requires WellFormed(d) && Acyclic(d.Needs()) && OutcomesFor(d, o)
    requires Truthful(d, o, st) && id in d.nodes
    ensures Truthful(d, o, Visit(d, st, id).0)
  {
    hide WellFormed, TruthfulStatus, Decide, Final, AllFinished;
    if Visit(d, st, id).0 != st {
      DecisionTruthful(d, o, st, id);
    }
  }

  lemma BrokeTruthful(d: Dag, o: Statuses, rows: Rows, id: NodeID)
    requires WellFormed(d) && Acyclic(d.Needs()) && OutcomesFor(d, o)
    requires TruthfulRows(d, o, rows) && id in rows && rows[id] == ApprovalRow && EventFollows(Broke(id), o)
    ensures TruthfulRows(d, o, rows[id := FailedRow])
  {
    hide WellFormed, Final;
    assert TruthfulRow(d, o, id, rows[id]);
  }

  /** A decision over final needs is the one Final makes. */
  lemma DecisionTruthful(d: Dag, o: Statuses, st: State, id: NodeID)
    requires WellFormed(d) && Acyclic(d.Needs()) && OutcomesFor(d, o)
    requires Truthful(d, o, st) && id in d.nodes && Decide(d.nodes[id], st.status) != Pending
    ensures Decide(d.nodes[id], st.status) == Skipped ==> TruthfulStatus(d, o, id, Skipped)
    ensures Decide(d.nodes[id], st.status) == Ready ==> TruthfulStatus(d, o, id, Dispatched(d.nodes[id]))
  {
    var n := d.nodes[id];
    assert AllFinished(n, st.status);
    Neighbours(d, id);
    forall u | u in n.ins ensures u in d.nodes && u in st.status && st.status[u] == Final(d, o, u) {
      assert Finished(st.status, u);
      assert TruthfulStatus(d, o, u, st.status[u]);
    }
    FinalUnfolds(d, o, id, st.status);
    hide WellFormed, Decide;
  }

  lemma {:induction false} SweepTruthful(d: Dag, o: Statuses, st: State, k: nat)
    requires WellFormed(d) && Acyclic(d.Needs()) && OutcomesFor(d, o)
    requires Truthful(d, o, st) && k <= |d.order|
    ensures Truthful(d, o, Sweep(d, st, k).0)
  {
    OrderNodes(d);
    assert Covers(d, st);
    hide WellFormed, Visit, Truthful;
    if k > 0 {
      SweepTruthful(d, o, st, k - 1);
      VisitTruthful(d, o, Sweep(d, st, k - 1).0, d.order[k - 1]);
    }
  }

  lemma SyncedRowTruthful(d: Dag, o: Statuses, id: NodeID, row: RowStatus, decided: Decisions)
    requires WellFormed(d) && Acyclic(d.Needs()) && OutcomesFor(d, o) && id in d.nodes
    requires TruthfulRow(d, o, id, row) && EventFollows(Tick(decided), o)
    ensures var row' := if row == ApprovalRow && id in decided then VerdictRow(decided[id]) else row;
            TruthfulRow(d, o, id, row') && TruthfulStatus(d, o, id, FromRow(row'))
  {
    hide WellFormed, Final;
  }

  lemma RebuiltTruthful(d: Dag, o: Statuses, rows: Rows, decided: Decisions)
    requires WellFormed(d) && Acyclic(d.Needs()) && OutcomesFor(d, o)
    requires TruthfulRows(d, o, rows) && EventFollows(Tick(decided), o)
    ensures Truthful(d, o, Rebuilt(d, Synced(rows, decided)))
    ensures TruthfulRows(d, o, Synced(rows, decided))
  {
    hide WellFormed, TruthfulRow, TruthfulStatus, Rebuilt, FromRow, EventFollows;
    RebuiltEffect(d, Synced(rows, decided));
    forall id | id in d.nodes {
      SyncedRowTruthful(d, o, id, rows[id], decided);
    }
  }

  lemma TickTruthful(d: Dag, o: Statuses, rows: Rows, decided: Decisions)
    requires WellFormed(d) && Acyclic(d.Needs()) && OutcomesFor(d, o)
    requires TruthfulRows(d, o, rows) && EventFollows(Tick(decided), o)
    ensures Truthful(d, o, TickState(d, rows, decided))
    ensures TruthfulRows(d, o, TickRows(d, rows, decided))
  {
    var rows' := Synced(rows, decided);
    var st := Rebuilt(d, rows');
    RebuiltTruthful(d, o, rows, decided);
    SweepTruthful(d, o, st, |d.order|);
    SweepSwept(d, st, |d.order|);
    MarkedTruthful(d, o, rows', st, Next(d, st), ReadyList(d, st));
  }

  lemma MarkedRowTruthful(d: Dag, o: Statuses, id: NodeID)
    requires WellFormed(d) && Acyclic(d.Needs()) && OutcomesFor(d, o) && id in d.nodes
    requires TruthfulStatus(d, o, id, Dispatched(d.nodes[id]))
    ensures TruthfulRow(d, o, id, DispatchRow(d.nodes[id]))
  {
    hide WellFormed, Final;
  }

  lemma MarkedTruthful(d: Dag, o: Statuses, rows: Rows, before: State, after: State, ready: seq<NodeID>)
    requires WellFormed(d) && Acyclic(d.Needs()) && OutcomesFor(d, o)
    requires TruthfulRows(d, o, rows) && Truthful(d, o, after)
    requires Covers(d, before) && Swept(d, before, after, ready)
    ensures TruthfulRows(d, o, Marked(d, rows, ready))
  {
    hide WellFormed, Final, TruthfulRow, TruthfulStatus;
    forall id | id in d.nodes ensures TruthfulRow(d, o, id, Marked(d, rows, ready)[id]) {
      if id in ready {
        MarkedRowTruthful(d, o, id);
      }
    }
  }

  lemma DoneTruthful(d: Dag, o: Statuses, rows: Rows, id: NodeID, success: bool)
    requires WellFormed(d) && Acyclic(d.Needs()) && OutcomesFor(d, o)
    requires TruthfulRows(d, o, rows) && id in rows && rows[id] == RunningRow
    requires EventFollows(StageDone(id, success), o)
    ensures TruthfulRows(d, o, rows[id := Row(DoneStatus(success))])
  {
    hide WellFormed, Final;
    assert TruthfulRow(d, o, id, rows[id]);
  }

  lemma {:induction false} RowsTruthful(d: Dag, o: Statuses, events: seq<Event>)
    requires WellFormed(d) && Acyclic(d.Needs()) && OutcomesFor(d, o)
    requires Possible(d, InitialRows(d), events) && EventsFollow(events, o)
    ensures TruthfulRows(d, o, RowsAfter(d, InitialRows(d), events))
  {
    hide WellFormed, Final, TruthfulRow, Happens, EventFollows;
    if events == [] {
      InitialTruthful(d, o);
    } else {
      var n := |events| - 1;
      RowsTruthful(d, o, events[..n]);
      var rows := RowsAfter(d, InitialRows(d), events[..n]);
      assert EventFollows(events[n], o) && Happens(rows, events[n]);
      EventTruthful(d, o, rows, events[n]);
    }
  }

  lemma InitialTruthful(d: Dag, o: Statuses)
    requires WellFormed(d) && Acyclic(d.Needs()) && OutcomesFor(d, o)
    ensures TruthfulRows(d, o, InitialRows(d))
  {
    hide WellFormed, Final;
  }

  lemma EventTruthful(d: Dag, o: Statuses, rows: Rows, e: Event)
    requires WellFormed(d) && Acyclic(d.Needs()) && OutcomesFor(d, o)
    requires TruthfulRows(d, o, rows) && EventFollows(e, o) && Happens(rows, e)
    ensures TruthfulRows(d, o, RowsStep(d, rows, e))
  {
    hide WellFormed, Final, TickRows, TruthfulRows;
    match e
    case Tick(decided) => TickTruthful(d, o, rows, decided);
    case StageDone(id, success) => DoneTruthful(d, o, rows, id, success);
    case Broke(id) => BrokeTruthful(d, o, rows, id);
  }

  /** When all is final, what is true of it leaves one possibility. */
  lemma DoneIsFinal(d: Dag, o: Statuses, st: State)
    requires WellFormed(d) && Acyclic(d.Needs()) && OutcomesFor(d, o) && Truthful(d, o, st) && AllDone(st.status)
    ensures st.status == FinalStatuses(d, o)
  {
    hide WellFormed, Acyclic, OutcomesFor, Final;
    forall id | id in d.nodes ensures st.status[id] == FinalStatuses(d, o)[id] {
      assert TruthfulStatus(d, o, id, st.status[id]);
    }
  }

  /** Safety in any Order: a run that ticks finish ends in the statuses every scheduler run ends in. */
  lemma FinishedIsFinal(d: Dag, o: Statuses, events: seq<Event>, decided: Decisions)
    requires WellFormed(d) && Acyclic(d.Needs()) && OutcomesFor(d, o) && Finishes(d, o, events, decided)
    ensures TickState(d, RowsAfter(d, InitialRows(d), events), decided).status == FinalStatuses(d, o)
  {
    var rows := RowsAfter(d, InitialRows(d), events);
    hide WellFormed, TickState, Final, FinalStatuses, Truthful, TruthfulRows, EventFollows, EventsFollow, Possible;
    hide Acyclic, OutcomesFor, TickRows, InitialRows, RowsAfter, AllDone;
    RowsTruthful(d, o, events);
    TickTruthful(d, o, rows, decided);
    DoneIsFinal(d, o, TickState(d, rows, decided));
  }

  // ---- A stage listed before a skipped need is stuck ----

  lemma TickStuck(d: Dag, o: Statuses, rows: Rows, decided: Decisions, i: nat, j: nat)
    requires WellFormed(d) && Acyclic(d.Needs()) && OutcomesFor(d, o) && LateNeed(d, i, j)
    requires Final(d, o, d.order[j]) == Skipped
    requires TruthfulRows(d, o, rows) && rows[d.order[i]] == PendingRow && EventFollows(Tick(decided), o)
    ensures d.order[i] in TickState(d, rows, decided).status
    ensures TickState(d, rows, decided).status[d.order[i]] == Pending
    ensures TickRows(d, rows, decided)[d.order[i]] == PendingRow
  {
    hide WellFormed, Final;
    OrderNodes(d);
    var v, u := d.order[i], d.order[j];
    var rows' := Synced(rows, decided);
    var st := Rebuilt(d, rows');
    RebuiltTruthful(d, o, rows, decided);
    RebuiltEffect(d, rows');
    assert FromRow(rows'[u]) == Pending;
    SweepBefore(d, st, j, i);
    SweepBefore(d, st, i, i);
    assert !Finished(Sweep(d, st, i).0.status, u);
    assert Decide(d.nodes[v], Sweep(d, st, i).0.status) == Pending;
    SweepAfter(d, st, i, |d.order|);
    SweepSwept(d, st, |d.order|);
  }

  lemma {:induction false} StuckForever(d: Dag, o: Statuses, events: seq<Event>, i: nat, j: nat)
    requires WellFormed(d) && Acyclic(d.Needs()) && OutcomesFor(d, o) && LateNeed(d, i, j)
    requires Final(d, o, d.order[j]) == Skipped
    requires Possible(d, InitialRows(d), events) && EventsFollow(events, o)
    ensures TruthfulRows(d, o, RowsAfter(d, InitialRows(d), events))
    ensures RowsAfter(d, InitialRows(d), events)[d.order[i]] == PendingRow
  {
    hide WellFormed, Final, TruthfulRow, EventFollows, TickRows;
    RowsTruthful(d, o, events);
    if events != [] {
      var n := |events| - 1;
      StuckForever(d, o, events[..n], i, j);
      assert EventFollows(events[n], o);
      match events[n]
      case Tick(decided) => TickStuck(d, o, RowsAfter(d, InitialRows(d), events[..n]), decided, i, j);
      case StageDone(_, _) =>
      case Broke(_) =>
    }
  }

  /** No matter how many ticks and completions, the run is never found done. */
  lemma NeverFinishes(d: Dag, o: Statuses, i: nat, j: nat)
    requires WellFormed(d) && Acyclic(d.Needs()) && OutcomesFor(d, o) && LateNeed(d, i, j)
    requires Final(d, o, d.order[j]) == Skipped
    ensures !CanFinish(d, o)
  {
    forall events, decided | Finishes(d, o, events, decided) ensures false {
      StuckForever(d, o, events, i, j);
      TickStuck(d, o, RowsAfter(d, InitialRows(d), events), decided, i, j);
    }
  }

  // ---- Refinement for one choice of outcomes, in any Order ----

  /** With the outcomes `o` no stage is listed before a need that is skipped. */
  ghost predicate LateNeedsRun(d: Dag, o: Statuses)
    requires WellFormed(d) && Acyclic(d.Needs()) && OutcomesFor(d, o)
  {
    forall i: nat, j: nat :: LateNeed(d, i, j) ==> Final(d, o, d.order[j]) != Skipped
  }

  lemma FaithfulNoLateSkip(d: Dag, o: Statuses, st: State)
    requires WellFormed(d) && Acyclic(d.Needs()) && OutcomesFor(d, o) && LateNeedsRun(d, o)
    requires Coherent(d, st) && Faithful(st, o)
    ensures NoLateSkip(d, st)
  {
    hide Acyclic, Final, OutcomesFor;
    assert Covers(d, st);
    forall i: nat, j: nat | LateNeed(d, i, j) ensures st.status[d.order[j]] != Skipped {
      if st.status[d.order[j]] == Skipped {
        TerminalIsFinal(d, o, st, d.order[j]);
      }
    }
  }

  lemma {:induction false} ResolvedFaithful(d: Dag, o: Statuses, st: State, decided: Decisions, k: nat)
    requires Faithful(st, o) && EventFollows(Tick(decided), o) && st.status.Keys <= o.Keys && k <= |d.order|
    ensures Faithful(Resolved(d, st, decided, k), o) && Resolved(d, st, decided, k).status.Keys <= o.Keys
  {
    if k > 0 {
      ResolvedFaithful(d, o, st, decided, k - 1);
    }
  }

  lemma LongStepFaithful(d: Dag, o: Statuses, st: State, e: Event)
    requires WellFormed(d) && OutcomesFor(d, o) && Coherent(d, st) && Faithful(st, o)
    requires EventFollows(e, o) && Happens(Stored(st), e)
    ensures Faithful(LongStep(d, st, e), o)
  {
    assert Covers(d, st) && st.status.Keys <= o.Keys;
    match e
    case Tick(decided) =>
      ResolvedFaithful(d, o, st, decided, |d.order|);
      ResolvedCoherent(d, st, decided, |d.order|);
      SweepFaithful(d, Resolved(d, st, decided, |d.order|), o, |d.order|);
    case StageDone(_, _) =>
    case Broke(_) =>
  }

  /** What an event does to the rows it does to the long-lived scheduler. */
  lemma FollowStep(d: Dag, o: Statuses, st: State, e: Event)
    requires WellFormed(d) && Acyclic(d.Needs()) && OutcomesFor(d, o) && LateNeedsRun(d, o)
    requires Coherent(d, st) && Faithful(st, o) && EventFollows(e, o) && Happens(Stored(st), e)
    ensures Coherent(d, LongStep(d, st, e)) && Faithful(LongStep(d, st, e), o) && NoLateSkip(d, LongStep(d, st, e))
    ensures RowsStep(d, Stored(st), e) == Stored(LongStep(d, st, e))
  {
    hide WellFormed, Acyclic, OutcomesFor, LateNeedsRun, Coherent, Faithful, NoLateSkip, EventFollows, Happens;
    hide LongStep;
    LongStepCoherent(d, st, e);
    LongStepFaithful(d, o, st, e);
    FaithfulNoLateSkip(d, o, LongStep(d, st, e));
    EventAgrees(d, st, e);
  }

  /** The long-lived scheduler after the same events. */
  ghost function FollowAfter(d: Dag, o: Statuses, events: seq<Event>): (st: State)
    requires WellFormed(d) && Acyclic(d.Needs()) && OutcomesFor(d, o) && LateNeedsRun(d, o)
    requires Possible(d, InitialRows(d), events) && EventsFollow(events, o)
    ensures Coherent(d, st) && Faithful(st, o)
    ensures Stored(st) == RowsAfter(d, InitialRows(d), events)
  {
    if events == [] then
      InitialCoherent(d);
      assert Stored(Initial(d)) == InitialRows(d);
      Initial(d)
    else
      assert EventFollows(events[|events| - 1], o);
      var st, e := FollowAfter(d, o, events[..|events| - 1]), events[|events| - 1];
      FollowStep(d, o, st, e);
      LongStep(d, st, e)
  }

  // ---- With the order condition every run finishes ----

  lemma {:induction false} ResolvedRemaining(d: Dag, st: State, decided: Decisions, k: nat)
    requires WellFormed(d) && Coherent(d, st) && k <= |d.order|
    ensures Coherent(d, Resolved(d, st, decided, k))
    ensures Remaining(Resolved(d, st, decided, k)) <= Remaining(st)
    ensures Resolved(d, st, decided, k) != st ==> Remaining(Resolved(d, st, decided, k)) < Remaining(st)
  {
    hide WellFormed, Coherent, Remaining;
    CoherentTracks(d, st);
    OrderNodes(d);
    if k > 0 {
      ResolvedRemaining(d, st, decided, k - 1);
      var prev, id := Resolved(d, st, decided, k - 1), d.order[k - 1];
      if id in prev.status && prev.status[id] == WaitingApproval && id in decided {
        CoherentTracks(d, prev);
        StepCoherent(d, prev, Finish(id, VerdictStatus(decided[id])));
        CompletionRemaining(d, prev, id, VerdictStatus(decided[id]));
      }
    }
  }

  /** An event of the long-lived scheduler that does something leaves less to do. */
  lemma TickRemaining(d: Dag, st: State, decided: Decisions)
    requires WellFormed(d) && Acyclic(d.Needs()) && Coherent(d, st)
    requires !AllDone(LongStep(d, st, Tick(decided)).status)
    requires st.dispatched == {} || exists id :: id in st.status && st.status[id] == WaitingApproval && id in decided
    ensures Remaining(LongStep(d, st, Tick(decided))) < Remaining(st)
  {
    var resolved := Resolved(d, st, decided, |d.order|);
    ResolvedRemaining(d, st, decided, |d.order|);
    SweepRemaining(d, resolved, |d.order|);
    AllSettled(d, st, decided);
    if resolved == st {
      SweepCoherent(d, st, |d.order|);
      if !AllDone(st.status) {
        Progress(d, st);
      }
    }
  }

  /** In every state some event leads on, unless the next tick finds the run done. */
  lemma NextEvent(d: Dag, o: Statuses, st: State) returns (e: Event, decided: Decisions)
    requires WellFormed(d) && Acyclic(d.Needs()) && TwoOutcomes(d, o) && Coherent(d, st)
    ensures EventFollows(Tick(decided), o) && EventFollows(e, o) && Happens(Stored(st), e)
    ensures AllDone(LongStep(d, st, Tick(decided)).status) || Remaining(LongStep(d, st, e)) < Remaining(st)
  {
    CoherentTracks(d, st);
    hide WellFormed, Coherent, LongStep;
    decided := map[];
    e := Tick(decided);
    if id :| id in st.dispatched {
      if st.status[id] == Running {
        e := StageDone(id, o[id] == Success);
        CompletionRemaining(d, st, id, o[id]);
        return;
      }
      decided := map[id := if o[id] == Success then Approved else TimedOut];
      e := Tick(decided);
    }
    if !AllDone(LongStep(d, st, e).status) {
      TickRemaining(d, st, decided);
    }
  }

  lemma ExtendRun(d: Dag, o: Statuses, events: seq<Event>, e: Event)
    requires WellFormed(d) && Acyclic(d.Needs()) && OutcomesFor(d, o) && LateNeedsRun(d, o)
    requires Possible(d, InitialRows(d), events) && EventsFollow(events, o)
    requires EventFollows(e, o) && Happens(Stored(FollowAfter(d, o, events)), e)
    ensures Possible(d, InitialRows(d), events + [e]) && EventsFollow(events + [e], o)
    ensures FollowAfter(d, o, events + [e]) == LongStep(d, FollowAfter(d, o, events), e)
  {
    hide WellFormed, Acyclic, OutcomesFor, LateNeedsRun, Happens, LongStep, EventFollows;
    assert (events + [e])[..|events|] == events;
  }

  /** From any possible history the run can be driven on until a tick finds it done. */
  lemma {:induction false} DriveOn(d: Dag, o: Statuses, events: seq<Event>)
    requires WellFormed(d) && Acyclic(d.Needs()) && TwoOutcomes(d, o) && LateNeedsRun(d, o)
    requires Possible(d, InitialRows(d), events) && EventsFollow(events, o)
    ensures CanFinish(d, o)
    decreases Remaining(FollowAfter(d, o, events))
  {
    hide WellFormed, Acyclic, LateNeedsRun, Coherent, EventFollows, Happens, LongStep, NoLateSkip;
    var st := FollowAfter(d, o, events);
    var e, decided := NextEvent(d, o, st);
    if AllDone(LongStep(d, st, Tick(decided)).status) {
      AnyTickHappens(Stored(st), decided);
      FollowStep(d, o, st, Tick(decided));
      TickAgrees(d, st, decided);
      assert Finishes(d, o, events, decided);
    } else {
      ExtendRun(d, o, events, e);
      DriveOn(d, o, events + [e]);
    }
  }

  lemma AnyTickHappens(rows: Rows, decided: Decisions)
    ensures Happens(rows, Tick(decided))
  {
  }

  /** Some history of ticks and completions with the outcomes `o` finishes the run if and only if no stage is
      listed before a need that is skipped with them. */
  lemma FinishExactly(d: Dag, o: Statuses)
    requires WellFormed(d) && Acyclic(d.Needs()) && TwoOutcomes(d, o)
    ensures CanFinish(d, o) <==> LateNeedsRun(d, o)
  {
    if i: nat, j: nat :| LateNeed(d, i, j) && Final(d, o, d.order[j]) == Skipped {
      NeverFinishes(d, o, i, j);
    } else {
      DriveOn(d, o, []);
    }
  }

  // ---- Outcomes with which the run goes on ----

  /** A rejection, by vote or by timeout, ends the run through its own row. While the run goes on an approval fails
      only if it is one of `failing`: its timeout pauses the run, or its request cannot be created. */
  ghost predicate Live(d: Dag, failing: set<NodeID>, o: Statuses) {
    TwoOutcomes(d, o) && forall id :: id in d.nodes && !CanFail(d, failing, id) ==> o[id] == Success
  }

  predicate CanFail(d: Dag, failing: set<NodeID>, id: NodeID) {
    id in d.nodes && (!IsApproval(d.nodes[id]) || id in failing)
  }

  /** The stage can be skipped while the run goes on: on account of its own condition, or of a need that can fail
      or be skipped. */
  ghost predicate CanSkipLive(d: Dag, failing: set<NodeID>, id: NodeID)
    requires WellFormed(d) && Acyclic(d.Needs()) && id in d.nodes
    decreases Below(d.Needs(), id), 0
  {
    var n := d.nodes[id];
    Neighbours(d, id);
    OnFailure(n) ||
    (!Always(n) && exists u :: u in n.ins && (BelowShrinks(d.Needs(), id, u); SkipsOrFails(d, failing, u)))
  }

  ghost predicate SkipsOrFails(d: Dag, failing: set<NodeID>, id: NodeID)
    requires WellFormed(d) && Acyclic(d.Needs()) && id in d.nodes
    decreases Below(d.Needs(), id), 1
  {
    CanFail(d, failing, id) || CanSkipLive(d, failing, id)
  }

  function AllSucceed(d: Dag): Statuses {
    map id | id in d.nodes :: Success
  }

  lemma FinalValues(d: Dag, o: Statuses, id: NodeID)
    requires WellFormed(d) && Acyclic(d.Needs()) && OutcomesFor(d, o) && id in d.nodes
    ensures Final(d, o, id) == Skipped || Final(d, o, id) == o[id]
  {
  }

  /** The decision on a node, from the statuses that its needs end with. */
  lemma FinalDecision(d: Dag, o: Statuses, id: NodeID) returns (status: Statuses)
    requires WellFormed(d) && Acyclic(d.Needs()) && OutcomesFor(d, o) && id in d.nodes
    ensures forall u :: u in d.nodes[id].ins ==> u in d.nodes && u in status && status[u] == Final(d, o, u)
    ensures Final(d, o, id) == Skipped <==> Decide(d.nodes[id], status) == Skipped
  {
    Neighbours(d, id);
    status := map u | u in d.nodes[id].ins :: Final(d, o, u);
    FinalUnfolds(d, o, id, status);
  }

  lemma FailureSkips(n: Node, status: Statuses)
    requires OnFailure(n) && forall u :: u in n.ins ==> u in status && status[u] in {Success, Skipped}
    ensures Decide(n, status) == Skipped
  {
  }

  lemma NeedSkips(n: Node, status: Statuses, u: NodeID)
    requires !Always(n) && !OnFailure(n) && u in n.ins && u in status && status[u] in {Failed, Skipped}
    requires forall x :: x in n.ins ==> x in status && status[x] in {Success, Failed, Skipped}
    ensures Decide(n, status) == Skipped
  {
  }

  lemma SkippedBy(n: Node, status: Statuses) returns (u: NodeID)
    requires Decide(n, status) == Skipped && !OnFailure(n)
    requires forall x :: x in n.ins ==> x in status && status[x] in {Success, Failed, Skipped}
    ensures !Always(n) && u in n.ins && status[u] in {Failed, Skipped}
  {
    if SomeNeed(n, status, Failed) {
      u :| u in n.ins && u in status && status[u] == Failed;
    } else {
      u :| u in n.ins && u in status && status[u] == Skipped;
    }
  }

  lemma SuccessSkips(d: Dag, id: NodeID)
    requires WellFormed(d) && Acyclic(d.Needs()) && id in d.nodes && OnFailure(d.nodes[id])
    ensures Final(d, AllSucceed(d), id) == Skipped
  {
    var o := AllSucceed(d);
    var status := FinalDecision(d, o, id);
    forall u | u in d.nodes[id].ins ensures status[u] in {Success, Skipped} {
      FinalValues(d, o, u);
    }
    FailureSkips(d.nodes[id], status);
  }

  /** If `id` can be skipped while the run goes on, some such outcomes skip it. */
  lemma {:induction false} SkippingOutcomes(d: Dag, failing: set<NodeID>, id: NodeID) returns (o: Statuses)
    requires WellFormed(d) && Acyclic(d.Needs()) && id in d.nodes && CanSkipLive(d, failing, id)
    ensures Live(d, failing, o) && Final(d, o, id) == Skipped
    decreases Below(d.Needs(), id)
  {
    hide WellFormed, Acyclic, CanSkipLive, Final, Live, CanFail, Below, OnFailure, Always;
    if OnFailure(d.nodes[id]) {
      o := AllSucceed(d);
      AllLive(d, failing);
      SuccessSkips(d, id);
    } else {
      var u := SkippingNeed(d, failing, id);
      if CanSkipLive(d, failing, u) {
        o := SkippingOutcomes(d, failing, u);
        LiveTwo(d, failing, o);
      } else {
        o := AllSucceed(d)[u := Failed];
        OneFails(d, failing, u);
      }
      SkipSpreads(d, o, id, u);
    }
  }

  lemma SkippingNeed(d: Dag, failing: set<NodeID>, id: NodeID) returns (u: NodeID)
    requires WellFormed(d) && Acyclic(d.Needs()) && id in d.nodes && CanSkipLive(d, failing, id)
    requires !OnFailure(d.nodes[id])
    ensures !Always(d.nodes[id]) && u in d.nodes[id].ins && u in d.nodes
    ensures Below(d.Needs(), u) < Below(d.Needs(), id) && (CanFail(d, failing, u) || CanSkipLive(d, failing, u))
  {
    Neighbours(d, id);
    u :| u in d.nodes[id].ins && SkipsOrFails(d, failing, u);
    BelowShrinks(d.Needs(), id, u);
  }

  lemma LiveTwo(d: Dag, failing: set<NodeID>, o: Statuses)
    requires Live(d, failing, o)
    ensures TwoOutcomes(d, o)
  {
  }

  lemma OneFails(d: Dag, failing: set<NodeID>, u: NodeID)
    requires CanFail(d, failing, u)
    ensures Live(d, failing, AllSucceed(d)[u := Failed])
    ensures TwoOutcomes(d, AllSucceed(d)[u := Failed])
  {
  }

  lemma AllLive(d: Dag, failing: set<NodeID>)
    ensures Live(d, failing, AllSucceed(d))
  {
  }

  lemma SkipSpreads(d: Dag, o: Statuses, id: NodeID, u: NodeID)
    requires WellFormed(d) && Acyclic(d.Needs()) && TwoOutcomes(d, o) && id in d.nodes
    requires u in d.nodes[id].ins && u in d.nodes && (Final(d, o, u) == Skipped || o[u] == Failed)
    requires !Always(d.nodes[id]) && !OnFailure(d.nodes[id])
    ensures Final(d, o, id) == Skipped
  {
    var status := FinalDecision(d, o, id);
    forall x | x in d.nodes[id].ins ensures status[x] in {Success, Failed, Skipped} {
      FinalValues(d, o, x);
    }
    FinalValues(d, o, u);
    NeedSkips(d.nodes[id], status, u);
  }

  /** Nothing else is skipped while the run goes on. */
  lemma {:induction false} SkippedCanSkip(d: Dag, failing: set<NodeID>, o: Statuses, id: NodeID)
    requires WellFormed(d) && Acyclic(d.Needs()) && Live(d, failing, o) && id in d.nodes
    requires Final(d, o, id) == Skipped
    ensures CanSkipLive(d, failing, id)
    decreases Below(d.Needs(), id)
  {
    var n := d.nodes[id];
    if !OnFailure(n) {
      var status := FinalDecision(d, o, id);
      forall x | x in n.ins ensures status[x] in {Success, Failed, Skipped} {
        FinalValues(d, o, x);
      }
      var u := SkippedBy(n, status);
      FinalValues(d, o, u);
      Neighbours(d, id);
      BelowShrinks(d.Needs(), id, u);
      if status[u] == Skipped {
        SkippedCanSkip(d, failing, o, u);
      }
      assert SkipsOrFails(d, failing, u);
    }
  }

  /** A stage can be skipped while the run goes on exactly if some such outcomes skip it. */
  lemma CanSkipLiveExactly(d: Dag, failing: set<NodeID>, id: NodeID)
    requires WellFormed(d) && Acyclic(d.Needs()) && id in d.nodes
    ensures CanSkipLive(d, failing, id) <==> exists o :: Live(d, failing, o) && Final(d, o, id) == Skipped
  {
    if CanSkipLive(d, failing, id) {
      var o := SkippingOutcomes(d, failing, id);
    }
    if o :| Live(d, failing, o) && Final(d, o, id) == Skipped {
      SkippedCanSkip(d, failing, o, id);
    }
  }

  /** Every need that can be skipped while the run goes on is listed before the stages that need it. */
  ghost predicate LiveOrdered(d: Dag, failing: set<NodeID>)
    requires WellFormed(d) && Acyclic(d.Needs())
  {
    forall i: nat, j: nat :: LateNeed(d, i, j) ==> !CanSkipLive(d, failing, d.order[j])
  }

  /** That is no more than SkipOrdered asks, and the same if every approval can fail. */
  lemma SkipOrderedLive(d: Dag, failing: set<NodeID>)
    requires WellFormed(d) && Acyclic(d.Needs())
    ensures SkipOrdered(d) ==> LiveOrdered(d, failing)
    ensures failing >= d.nodes.Keys && LiveOrdered(d, failing) ==> SkipOrdered(d)
  {
    forall i: nat, j: nat | LateNeed(d, i, j)
      ensures CanSkipLive(d, failing, d.order[j]) ==> CanSkip(d.nodes[d.order[j]])
      ensures failing >= d.nodes.Keys && CanSkip(d.nodes[d.order[j]]) ==> CanSkipLive(d, failing, d.order[j])
    {
      LiveCanSkip(d, failing, d.order[j]);
    }
  }

  lemma LiveCanSkip(d: Dag, failing: set<NodeID>, id: NodeID)
    requires WellFormed(d) && Acyclic(d.Needs()) && id in d.nodes
    ensures CanSkipLive(d, failing, id) ==> CanSkip(d.nodes[id])
    ensures failing >= d.nodes.Keys && CanSkip(d.nodes[id]) ==> CanSkipLive(d, failing, id)
  {
    var n := d.nodes[id];
    Neighbours(d, id);
    if failing >= d.nodes.Keys && CanSkip(n) && !OnFailure(n) {
      assert n.ins[0] in n.ins && SkipsOrFails(d, failing, n.ins[0]);
    }
  }

  lemma LiveOrderedRuns(d: Dag, failing: set<NodeID>, o: Statuses)
    requires WellFormed(d) && Acyclic(d.Needs()) && LiveOrdered(d, failing) && Live(d, failing, o)
    ensures LateNeedsRun(d, o)
  {
    forall i: nat, j: nat | LateNeed(d, i, j) ensures Final(d, o, d.order[j]) != Skipped {
      if Final(d, o, d.order[j]) == Skipped {
        SkippedCanSkip(d, failing, o, d.order[j]);
      }
    }
  }

  /** Without that order some such outcomes skip a need of a stage listed before it. */
  lemma BlockingOutcomes(d: Dag, failing: set<NodeID>) returns (o: Statuses, i: nat, j: nat)
    requires WellFormed(d) && Acyclic(d.Needs()) && !LiveOrdered(d, failing)
    ensures Live(d, failing, o) && LateNeed(d, i, j) && Final(d, o, d.order[j]) == Skipped
  {
    i, j :| LateNeed(d, i, j) && CanSkipLive(d, failing, d.order[j]);
    o := SkippingOutcomes(d, failing, d.order[j]);
  }

  /** For all outcomes with which the run goes on, some history of ticks and completions finishes it, if and only if
      no stage is listed before a need that can be skipped then. (See TickEvents for the ticks that events cause.) */
  lemma TicksFinishExactly(d: Dag, failing: set<NodeID>)
    requires WellFormed(d) && Acyclic(d.Needs())
    ensures (forall o :: Live(d, failing, o) ==> CanFinish(d, o)) <==> LiveOrdered(d, failing)
  {
    if LiveOrdered(d, failing) {
      forall o | Live(d, failing, o) ensures CanFinish(d, o) {
        LiveOrderedRuns(d, failing, o);
        FinishExactly(d, o);
      }
    } else {
      var o, i, j := BlockingOutcomes(d, failing);
      NeverFinishes(d, o, i, j);
    }
  }
}
