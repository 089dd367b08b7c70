/** Exactly when events alone finish every run. */
module EventLiveness {
  import opened Sequences
  import opened Digraphs
  import opened Pipelines
  import opened Dags
  import opened Schedulers
  import opened Runs
  import opened Ticks
  import opened TickLiveness
  import opened TickEvents
  import opened Orchestrate
  import R = RunStates

  /** Whenever nothing more can happen but a rejection, and no rejection has ended the run, it has been found done. */
  ghost predicate EventsFinish(d: Dag, tm: Timers)
    requires WellFormed(d)
  {
    forall ts :: Driven(d, tm, ts) && !Over(ts) && Stuck(d, tm, ts) ==> AllDone(LastState(d, ts).status)
  }

  // ---- What keeps a run from being stranded ----

  /** As long as no approval fails, none with a timer that pauses is ever handed out. */
  ghost predicate NeverPauses(d: Dag, tm: Timers)
    requires WellFormed(d) && Acyclic(d.Needs())
  {
    forall id, o :: id in tm.pausing && id in d.nodes && IsApproval(d.nodes[id]) && Live(d, {}, o) ==>
      Final(d, o, id) == Skipped
  }

  /** Two approvals that are handed out with the outcomes `o`, neither of which needs the other. */
  ghost predicate Parallel(d: Dag, o: Statuses, a: NodeID, b: NodeID)
    requires WellFormed(d) && Acyclic(d.Needs()) && OutcomesFor(d, o)
  {
    && a in d.nodes && b in d.nodes && a != b && IsApproval(d.nodes[a]) && IsApproval(d.nodes[b])
    && Final(d, o, a) != Skipped && Final(d, o, b) != Skipped
    && !Reaches(d.Needs(), a, b) && !Reaches(d.Needs(), b, a)
  }

  /** Approvals that can wait beside another one have a timer that approves. */
  ghost predicate NoneStranded(d: Dag, tm: Timers)
    requires WellFormed(d) && Acyclic(d.Needs())
  {
    forall o, a, b :: Live(d, {}, o) && Parallel(d, o, a, b) ==> b in tm.approving
  }

  // ---- No pauses ----

  lemma {:induction false} NoPauses(d: Dag, tm: Timers, ts: seq<Trigger>)
    requires WellFormed(d) && Acyclic(d.Needs()) && NeverPauses(d, tm) && Driven(d, tm, ts)
    ensures Paused(ts) == {}
  {
    if ts != [] {
      var n := |ts| - 1;
      NoPauses(d, tm, ts[..n]);
      hide WellFormed, Acyclic, NeverPauses, RowsNow, Known, Asking;
      if ts[n].Pause? {
        PauseHandedOut(d, tm, ts[..n], ts[n].id);
      }
      PausedLast(ts);
    }
  }

  lemma PausedLast(ts: seq<Trigger>)
    requires ts != [] && Paused(ts[..|ts| - 1]) == {} && !ts[|ts| - 1].Pause?
    ensures Paused(ts) == {}
  {
    var n := |ts| - 1;
    assert forall i :: 0 <= i < n ==> ts[..n][i] == ts[i] && (ts[i].Pause? ==> ts[i].id in Paused(ts[..n]));
  }

  /** A waiting approval is one that some outcomes hand out. */
  lemma PauseHandedOut(d: Dag, tm: Timers, ts: seq<Trigger>, id: NodeID)
    requires WellFormed(d) && Acyclic(d.Needs()) && Driven(d, tm, ts) && Paused(ts) == {}
    requires id in tm.pausing && id in RowsNow(d, ts) && RowsNow(d, ts)[id] == ApprovalRow
    ensures !NeverPauses(d, tm)
  {
    hide WellFormed, Acyclic, Driven, RowsNow, Live;
    var o := OutcomesOf(d, tm, ts);
    LiveTwo(d, {}, o);
    DrivenAccounted(d, tm, ts);
    HandedOutRuns(d, tm, o, ts, id);
  }

  lemma HandedOutRuns(d: Dag, tm: Timers, o: Statuses, ts: seq<Trigger>, id: NodeID)
    requires WellFormed(d) && Acyclic(d.Needs()) && TwoOutcomes(d, o) && Driven(d, tm, ts)
    requires TriggersFollow(ts, o) && id in RowsNow(d, ts) && FromRow(RowsNow(d, ts)[id]) != Pending
    ensures id in d.nodes && Final(d, o, id) == o[id]
  {
    hide WellFormed, Acyclic, Final, Driven, TriggersFollow, TickRows, TickState, RowsAfter, EventsFollow, EventFollows;
    hide Possible, Truthful;
    DrivenPossible(d, tm, ts);
    DrivenFollows(d, tm, ts, o);
    RowsTruthful(d, o, BeforeTick(ts));
    TickTruthful(d, o, RowsBefore(d, ts), News(ts));
    assert TruthfulRow(d, o, id, RowsNow(d, ts)[id]);
  }

  // ---- What a tick does to a waiting approval ----

  /** What a tick made of one row `row`, and of it in the scheduler; `taken` says whether it was handed out. */
  ghost predicate RowStep(n: Node, row: RowStatus, decision: Option<Decision>, taken: bool, row': RowStatus,
                          s: NodeStatus)
  {
    var synced := if row == ApprovalRow && decision.Some? then VerdictRow(decision.value) else row;
    if taken then FromRow(synced) == Pending && row' == DispatchRow(n) && s == Dispatched(n)
    else row' == synced && (s == FromRow(synced) || (FromRow(synced) == Pending && s == Skipped))
  }

  function DecisionOn(decided: Decisions, id: NodeID): Option<Decision> {
    if id in decided then Some(decided[id]) else None
  }

  lemma TickRow(d: Dag, rows: Rows, decided: Decisions, id: NodeID)
    requires WellFormed(d) && RowsFor(d, rows) && id in d.nodes
    ensures RowsFor(d, TickRows(d, rows, decided)) && Covers(d, TickState(d, rows, decided))
    ensures RowStep(d.nodes[id], rows[id], DecisionOn(decided, id), id in TickReady(d, rows, decided),
                    TickRows(d, rows, decided)[id], TickState(d, rows, decided).status[id])
  {
    hide WellFormed, Rebuilt, FromRow, DispatchRow, RowStep, Swept, Marked, Synced, Sweep;
    var rows' := Synced(rows, decided);
    FreshPending(rows, decided, id);
    SyncedFor(d, rows, decided);
    RebuiltEffect(d, rows');
    SweepSwept(d, Rebuilt(d, rows'), |d.order|);
    MarkedStep(d, rows, rows', Rebuilt(d, rows'), TickState(d, rows, decided), TickReady(d, rows, decided), decided,
               id);
  }

  lemma SyncedFor(d: Dag, rows: Rows, decided: Decisions)
    requires RowsFor(d, rows)
    ensures RowsFor(d, Synced(rows, decided))
  {
  }

  lemma MarkedStep(d: Dag, rows: Rows, rows': Rows, before: State, after: State, ready: seq<NodeID>,
                   decided: Decisions, id: NodeID)
    requires RowsFor(d, rows) && RowsFor(d, rows') && id in d.nodes
    requires Covers(d, before) && Covers(d, after) && Swept(d, before, after, ready)
    requires before.status[id] == FromRow(rows'[id])
    requires rows'[id] == if rows[id] == ApprovalRow && DecisionOn(decided, id).Some? then VerdictRow(decided[id])
                          else rows[id]
    ensures RowsFor(d, Marked(d, rows', ready))
    ensures RowStep(d.nodes[id], rows[id], DecisionOn(decided, id), id in ready, Marked(d, rows', ready)[id],
                    after.status[id])
  {
    hide FromRow, DispatchRow, Dispatched, VerdictRow;
  }

  /** The same after a history. */
  lemma NowRow(d: Dag, tm: Timers, ts: seq<Trigger>, id: NodeID)
    requires WellFormed(d) && Driven(d, tm, ts) && id in d.nodes && ts != [] && CausesTick(ts[|ts| - 1])
    ensures var before, n := RowsNow(d, ts[..|ts| - 1]), |ts| - 1;
            && id in before && id in RowsNow(d, ts)
            && (RowsNow(d, ts)[id] == ApprovalRow ==>
                  Fresh(d, ts, id) || (before[id] == ApprovalRow && id !in Known(ts)))
            && (before[id] == ApprovalRow && id !in Known(ts) ==>
                  RowsNow(d, ts)[id] == ApprovalRow && !Fresh(d, ts, id))
            && (before[id] == ApprovalRow && id in Known(ts) ==> RowsNow(d, ts)[id] == VerdictRow(Known(ts)[id]))
            && (before[id] == FailedRow ==> RowsNow(d, ts)[id] == FailedRow)
            && (Fresh(d, ts, id) && IsApproval(d.nodes[id]) ==>
                  RowsNow(d, ts)[id] == ApprovalRow && id !in Known(ts))
  {
    var n := |ts| - 1;
    hide WellFormed, TickRows, TickState, TickReady, RowsNow, RowsBefore, Known, News, Accounted, About, Asking;
    DrivenAccounted(d, tm, ts[..n]);
    LedRows(d, tm, ts);
    RowsNowAre(d, ts);
    KnownMore(ts);
    LedWaiting(RowsNow(d, ts[..n]), Known(ts[..n]), ts[n], id, d);
    AccountedRows(d, ts[..n], RowsNow(d, ts[..n]));
    TickRow(d, RowsBefore(d, ts), News(ts), id);
    if Fresh(d, ts, id) {
      FreshPending(RowsBefore(d, ts), News(ts), id);
      FreshUndecided(d, ts, RowsNow(d, ts[..n]), id);
    }
  }

  lemma FreshPending(rows: Rows, decided: Decisions, id: NodeID)
    requires id in rows
    ensures Synced(rows, decided)[id] ==
            if rows[id] == ApprovalRow && DecisionOn(decided, id).Some? then VerdictRow(decided[id]) else rows[id]
  {
  }

  /** The last tick has handed out `id`. */
  ghost predicate Fresh(d: Dag, ts: seq<Trigger>, id: NodeID)
    requires WellFormed(d)
  {
    id in TickReady(d, RowsBefore(d, ts), News(ts))
  }

  lemma AccountedRows(d: Dag, ts: seq<Trigger>, rows: Rows)
    requires Accounted(d, ts, rows)
    ensures RowsFor(d, rows)
    ensures forall id :: id in d.nodes && rows[id] in {RunningRow, ApprovalRow} ==> rows[id] == DispatchRow(d.nodes[id])
  {
    hide Counted, Spent, DecidedRows;
  }

  lemma LedWaiting(rows: Rows, known: Decisions, t: Trigger, id: NodeID, d: Dag)
    requires About(rows, known, t)
    ensures Led(rows, t).Keys == rows.Keys
    ensures id in rows ==> (Led(rows, t)[id] == ApprovalRow <==> rows[id] == ApprovalRow)
    ensures id in rows && rows[id] == FailedRow ==> Led(rows, t)[id] == FailedRow
  {
  }

  /** What is handed out has not been decided. */
  lemma FreshUndecided(d: Dag, ts: seq<Trigger>, rows: Rows, id: NodeID)
    requires WellFormed(d) && ts != [] && CausesTick(ts[|ts| - 1]) && id in d.nodes
    requires Accounted(d, ts[..|ts| - 1], rows) && About(rows, Known(ts[..|ts| - 1]), ts[|ts| - 1])
    requires RowsFor(d, Led(rows, ts[|ts| - 1]))
    requires FromRow(Synced(Led(rows, ts[|ts| - 1]), News(ts))[id]) == Pending
    ensures id !in Known(ts)
  {
    hide WellFormed, Accounted, Known, News, About, Led, Synced, FromRow, IDs;
    SyncedAccounted(d, ts, rows);
    PendingNotFinal(Synced(Led(rows, ts[|ts| - 1]), News(ts)), id);
  }

  lemma PendingNotFinal(rows: Rows, id: NodeID)
    requires id in rows && FromRow(rows[id]) == Pending
    ensures id !in FinalRows(rows)
  {
  }

  // ---- The state at the end of a history ----

  /** With outcomes that skip no need listed late the last tick ends in the state of the long-lived scheduler. */
  lemma LastCoherent(d: Dag, tm: Timers, o: Statuses, ts: seq<Trigger>)
    requires WellFormed(d) && Acyclic(d.Needs()) && TwoOutcomes(d, o) && LateNeedsRun(d, o)
    requires Driven(d, tm, ts) && TriggersFollow(ts, o)
    ensures Coherent(d, LastState(d, ts)) && Faithful(LastState(d, ts), o)
    ensures Stored(LastState(d, ts)) == RowsNow(d, ts)
    ensures forall x :: x in d.nodes && LastState(d, ts).status[x] == Pending ==>
              !AllFinished(d.nodes[x], LastState(d, ts).status)
  {
    hide WellFormed, Acyclic, LateNeedsRun, TickState, TickRows, Possible, EventsFollow, EventFollows, Driven;
    hide RowsAfter, TriggersFollow, Coherent, Faithful, NoLateSkip, LongStep, Happens, AllFinished;
    DrivenPossible(d, tm, ts);
    DrivenFollows(d, tm, ts, o);
    var st := FollowAfter(d, o, BeforeTick(ts));
    AnyTickHappens(Stored(st), News(ts));
    FollowStep(d, o, st, Tick(News(ts)));
    TickAgrees(d, st, News(ts));
    TickExhausts(d, st, News(ts));
  }

  /** A tick that skips no need listed late leaves no pending stage whose needs are all final. */
  lemma TickExhausts(d: Dag, st: State, decided: Decisions)
    requires WellFormed(d) && Coherent(d, st) && NoLateSkip(d, LongStep(d, st, Tick(decided)))
    ensures Covers(d, LongStep(d, st, Tick(decided)))
    ensures forall x :: x in d.nodes && LongStep(d, st, Tick(decided)).status[x] == Pending ==>
              !AllFinished(d.nodes[x], LongStep(d, st, Tick(decided)).status)
  {
    ResolvedCoherent(d, st, decided, |d.order|);
    var resolved := Resolved(d, st, decided, |d.order|);
    SweepCoherent(d, resolved, |d.order|);
    hide WellFormed, Coherent, AllFinished, Resolved, Next;
    forall x | x in d.nodes && Next(d, resolved).status[x] == Pending
      ensures !AllFinished(d.nodes[x], Next(d, resolved).status)
    {
      if AllFinished(d.nodes[x], Next(d, resolved).status) {
        var i, j := LateNeedOf(d, resolved, x);
      }
    }
  }

  /** What is left of a walk along needs is final as soon as its first stage is not pending. */
  lemma {:induction false} WalkFinished(d: Dag, st: State, p: seq<NodeID>, k: nat)
    requires WellFormed(d) && Coherent(d, st) && Walk(d.Needs(), p) && 0 < k < |p|
    requires p[0] in st.status && st.status[p[0]] != Pending
    ensures p[k] in d.nodes && Finished(st.status, p[k])
  {
    if k > 1 {
      WalkFinished(d, st, p, k - 1);
    }
    assert Edge(d.Needs(), p[k - 1], p[k]);
    JustifiedAt(d, st, p[k - 1]);
    Neighbours(d, p[k - 1]);
    hide WellFormed, Coherent, Decide, Walk;
  }

  /** Two approvals that wait at the same time do not need each other. */
  lemma WaitingApart(d: Dag, st: State, a: NodeID, b: NodeID)
    requires WellFormed(d) && Coherent(d, st) && a in st.status && b in st.status
    requires st.status[a] == WaitingApproval && st.status[b] == WaitingApproval
    ensures !Reaches(d.Needs(), a, b)
  {
    hide WellFormed, Coherent;
    if p :| |p| >= 2 && Walk(d.Needs(), p) && p[0] == a && p[|p| - 1] == b {
      WalkFinished(d, st, p, |p| - 1);
    }
  }

  lemma StoredWaiting(st: State, id: NodeID)
    requires id in st.status
    ensures Stored(st)[id] == ApprovalRow <==> st.status[id] == WaitingApproval
    ensures Stored(st)[id] == RunningRow <==> st.status[id] == Running
    ensures Stored(st)[id] == PendingRow <==> st.status[id] in {Pending, Ready, Skipped}
  {
  }

  // ---- Sufficiency ----

  /** An approval that waits while votes are refused was waiting when another one was approved. */
  lemma {:induction false} StrandedBeside(d: Dag, tm: Timers, o: Statuses, ts: seq<Trigger>, b: NodeID)
    returns (a: NodeID)
    requires WellFormed(d) && Acyclic(d.Needs()) && TwoOutcomes(d, o) && LateNeedsRun(d, o)
    requires Driven(d, tm, ts) && TriggersFollow(ts, o) && Paused(ts) == {} && !Over(ts)
    requires b in RowsNow(d, ts) && RowsNow(d, ts)[b] == ApprovalRow && b !in Known(ts) && !Asking(d, ts)
    ensures a in d.nodes && b in d.nodes && a != b && a in Known(ts) && IsApproval(d.nodes[a]) && IsApproval(d.nodes[b])
    ensures !Reaches(d.Needs(), a, b) && !Reaches(d.Needs(), b, a)
  {
    hide WellFormed, Acyclic, LateNeedsRun, RowsNow, LastState, RowsBefore, Accounted, TickReady, IsApproval, IDs;
    hide Paused, Known, About, TriggerFollows;
    DrivenAccounted(d, tm, ts);
    AccountedRows(d, ts, RowsNow(d, ts));
    WaitingKind(d, RowsNow(d, ts), b);
    if ts == [] {
      FirstFresh(d, b);
      FreshHandsOut(d, ts, b);
    } else {
      var n := |ts| - 1;
      PausedMore(ts);
      PausedNone(ts);
      NowRow(d, tm, ts, b);
      KnownMore(ts);
      if Fresh(d, ts, b) {
        FreshHandsOut(d, ts, b);
      }
      if ts[n].Completion? {
        a := StrandedBeside(d, tm, o, ts[..n], b);
      } else {
        a := ts[n].id;
        ApprovedBeside(d, tm, o, ts[..n], a, b);
      }
    }
  }

  lemma FreshHandsOut(d: Dag, ts: seq<Trigger>, id: NodeID)
    requires WellFormed(d) && Fresh(d, ts, id) && id in d.nodes && IsApproval(d.nodes[id])
    ensures HandsOut(d, ts)
  {
  }

  lemma PausedNone(ts: seq<Trigger>)
    requires ts != [] && Paused(ts) == {}
    ensures Paused(ts[..|ts| - 1]) == {}
  {
    PausedMore(ts);
    hide Paused;
  }

  lemma WaitingKind(d: Dag, rows: Rows, id: NodeID)
    requires RowsFor(d, rows) && id in rows && rows[id] == ApprovalRow && rows[id] == DispatchRow(d.nodes[id])
    ensures id in d.nodes && IsApproval(d.nodes[id])
  {
  }

  lemma FirstFresh(d: Dag, id: NodeID)
    requires WellFormed(d) && id in d.nodes
    ensures id in RowsNow(d, []) && (RowsNow(d, [])[id] == ApprovalRow <==> Fresh(d, [], id) && IsApproval(d.nodes[id]))
  {
    hide WellFormed, TickRows, TickState, TickReady, RowsNow, IsApproval;
    FirstTick(d);
    TickRow(d, InitialRows(d), map[], id);
  }

  lemma FirstTick(d: Dag)
    requires WellFormed(d)
    ensures RowsNow(d, []) == TickRows(d, InitialRows(d), map[])
    ensures LastState(d, []) == TickState(d, InitialRows(d), map[])
    ensures RowsBefore(d, []) == InitialRows(d) && News([]) == map[]
  {
    BeforeAnything(d);
    hide WellFormed, TickRows, TickState;
  }

  lemma ApprovedBeside(d: Dag, tm: Timers, o: Statuses, ts: seq<Trigger>, a: NodeID, b: NodeID)
    requires WellFormed(d) && Acyclic(d.Needs()) && TwoOutcomes(d, o) && LateNeedsRun(d, o)
    requires Driven(d, tm, ts) && TriggersFollow(ts, o)
    requires About(RowsNow(d, ts), Known(ts), Approval(a))
    requires b in RowsNow(d, ts) && RowsNow(d, ts)[b] == ApprovalRow
    ensures a in d.nodes && b in d.nodes && IsApproval(d.nodes[a])
    ensures !Reaches(d.Needs(), a, b) && !Reaches(d.Needs(), b, a)
  {
    hide WellFormed, Acyclic, LateNeedsRun, RowsNow, LastState, Accounted, Coherent, Faithful, Stored, Driven;
    hide TriggersFollow, Known, Reaches, IsApproval, AllFinished;
    LastCoherent(d, tm, o, ts);
    DrivenAccounted(d, tm, ts);
    AccountedRows(d, ts, RowsNow(d, ts));
    WaitingKind(d, RowsNow(d, ts), a);
    WaitingKind(d, RowsNow(d, ts), b);
    CoherentCovers(d, LastState(d, ts));
    StoredWaiting(LastState(d, ts), a);
    StoredWaiting(LastState(d, ts), b);
    WaitingApart(d, LastState(d, ts), a, b);
    WaitingApart(d, LastState(d, ts), b, a);
  }

  lemma CoherentCovers(d: Dag, st: State)
    requires WellFormed(d) && Coherent(d, st)
    ensures Covers(d, st)
  {
  }

  /** Every history that cannot go on has ended the run. */
  lemma FinishedHistory(d: Dag, tm: Timers, ts: seq<Trigger>)
    requires WellFormed(d) && Acyclic(d.Needs()) && LiveOrdered(d, {}) && NeverPauses(d, tm) && NoneStranded(d, tm)
    requires Driven(d, tm, ts) && !Over(ts) && Stuck(d, tm, ts)
    ensures AllDone(LastState(d, ts).status)
  {
    hide WellFormed, Acyclic, Driven, Stuck, RowsNow, LastState, AllDone, LiveOrdered, Live, NeverPauses, NoneStranded;
    hide Known, Asking, Paused, IDs, Over;
    NoPauses(d, tm, ts);
    var o := OutcomesOf(d, tm, ts);
    LiveTwo(d, {}, o);
    LiveOrderedRuns(d, {}, o);
    HistoryOutcome(d, tm, o, ts);
    StuckRows(d, tm, ts);
    NothingWaitsDecided(d, tm, ts);
    forall id | id in RowsNow(d, ts) ensures RowsNow(d, ts)[id] != ApprovalRow {
      if RowsNow(d, ts)[id] == ApprovalRow {
        NotStranded(d, tm, o, ts, id);
      }
    }
  }

  lemma NotStranded(d: Dag, tm: Timers, o: Statuses, ts: seq<Trigger>, b: NodeID)
    requires WellFormed(d) && Acyclic(d.Needs()) && Live(d, {}, o) && TwoOutcomes(d, o) && LateNeedsRun(d, o)
    requires NoneStranded(d, tm) && Driven(d, tm, ts) && TriggersFollow(ts, o) && Paused(ts) == {} && !Over(ts)
    requires b in RowsNow(d, ts) && RowsNow(d, ts)[b] == ApprovalRow && b !in Known(ts)
    ensures Asking(d, ts) || b in tm.approving
  {
    hide WellFormed, Acyclic, Driven, RowsNow, Live, NoneStranded, Known, Asking, Paused, LateNeedsRun, TriggersFollow;
    hide Reaches, Over, IsApproval, Final, TwoOutcomes;
    if !Asking(d, ts) {
      var a := StrandedBeside(d, tm, o, ts, b);
      KnownRuns(d, tm, o, ts, a);
      KnownOrWaitingRuns(d, tm, o, ts, b);
      ParallelTimed(d, tm, o, a, b);
    }
  }

  lemma ParallelTimed(d: Dag, tm: Timers, o: Statuses, a: NodeID, b: NodeID)
    requires WellFormed(d) && Acyclic(d.Needs()) && NoneStranded(d, tm) && Live(d, {}, o) && Parallel(d, o, a, b)
    ensures b in tm.approving
  {
  }

  lemma KnownRuns(d: Dag, tm: Timers, o: Statuses, ts: seq<Trigger>, id: NodeID)
    requires WellFormed(d) && Acyclic(d.Needs()) && TwoOutcomes(d, o) && Driven(d, tm, ts) && TriggersFollow(ts, o)
    requires id in Known(ts)
    ensures id in d.nodes && Final(d, o, id) != Skipped
  {
    hide WellFormed, Acyclic, Driven, RowsNow, Known, TriggersFollow, Final, Counted, Spent, Kinds;
    DrivenAccounted(d, tm, ts);
    KnownOrWaitingRuns(d, tm, o, ts, id);
  }

  lemma KnownOrWaitingRuns(d: Dag, tm: Timers, o: Statuses, ts: seq<Trigger>, id: NodeID)
    requires WellFormed(d) && Acyclic(d.Needs()) && TwoOutcomes(d, o) && Driven(d, tm, ts) && TriggersFollow(ts, o)
    requires id in RowsNow(d, ts) && (RowsNow(d, ts)[id] == ApprovalRow || id in FinalRows(RowsNow(d, ts)))
    ensures id in d.nodes && Final(d, o, id) != Skipped
  {
    hide WellFormed, Acyclic, Driven, RowsNow, TriggersFollow, Final;
    assert FromRow(RowsNow(d, ts)[id]) != Pending;
    HandedOutRuns(d, tm, o, ts, id);
  }

  /** Without pauses every tick has found all decisions: what waits has not been decided. */
  lemma NothingWaitsDecided(d: Dag, tm: Timers, ts: seq<Trigger>)
    requires WellFormed(d) && Driven(d, tm, ts) && Paused(ts) == {} && !Over(ts)
    ensures forall id :: id in Known(ts) && id in RowsNow(d, ts) ==> RowsNow(d, ts)[id] != ApprovalRow
  {
    if ts != [] {
      var n := |ts| - 1;
      PausedMore(ts);
      hide WellFormed, TickRows, Accounted, Led, News, Known, About, RowsBefore, LastState, RowsNow, FinalRows, Paused;
      hide Asking;
      DrivenAccounted(d, tm, ts[..n]);
      LedRows(d, tm, ts);
      RowsNowAre(d, ts);
      TickAccounted(d, ts, RowsNow(d, ts[..n]));
      FinalNotWaiting(RowsNow(d, ts));
    }
  }

  lemma FinalNotWaiting(rows: Rows)
    ensures forall id :: id in FinalRows(rows) ==> id in rows && rows[id] != ApprovalRow
  {
  }

  // ---- Carrying a history on ----

  /** Nothing can happen that would cause a tick, but to the stages `held`. */
  ghost predicate NoTicks(d: Dag, tm: Timers, ts: seq<Trigger>, held: set<NodeID>)
    requires WellFormed(d)
  {
    forall t: Trigger :: CausesTick(t) && t.id !in held ==> !CanTrigger(d, tm, ts, t)
  }

  /** A possible event, turned into one with the outcomes `o`. */
  lemma Fitting(d: Dag, tm: Timers, o: Statuses, ts: seq<Trigger>, t: Trigger) returns (t': Trigger)
    requires WellFormed(d) && Live(d, {}, o) && Driven(d, tm, ts) && CausesTick(t) && CanTrigger(d, tm, ts, t)
    ensures CausesTick(t') && t'.id == t.id && CanTrigger(d, tm, ts, t') && TriggerFollows(t', o)
  {
    hide WellFormed, RowsNow, Driven, Known, Asking, Accounted;
    DrivenAccounted(d, tm, ts);
    AccountedRows(d, ts, RowsNow(d, ts));
    t' := if t.Completion? then Completion(t.id, o[t.id] == Success) else t;
  }

  /** A history that goes on with `t`. */
  ghost predicate Longer(d: Dag, tm: Timers, o: Statuses, ts: seq<Trigger>, t: Trigger, more: seq<Trigger>)
    requires WellFormed(d)
  {
    && more == ts + [t] && more[..|ts|] == ts && CausesTick(t) && CanTrigger(d, tm, ts, t)
    && Driven(d, tm, more) && !Over(more) && TriggersFollow(more, o)
    && Paused(more) == {} && IDs(more) == IDs(ts) + {t.id} && |d.nodes| - |more| < |d.nodes| - |ts|
    && |more| <= |d.nodes|
  }

  lemma GoOn(d: Dag, tm: Timers, o: Statuses, ts: seq<Trigger>, t: Trigger) returns (more: seq<Trigger>)
    requires WellFormed(d) && Driven(d, tm, ts) && TriggersFollow(ts, o) && Paused(ts) == {}
    requires CausesTick(t) && CanTrigger(d, tm, ts, t) && TriggerFollows(t, o)
    ensures Longer(d, tm, o, ts, t, more)
  {
    hide WellFormed, CanTrigger, Paused, IDs;
    more := ts + [t];
    assert more[..|ts|] == ts;
    HistoriesEnd(d, tm, more);
    IDsSnoc(more);
    PausedLast(more);
  }

  /** A history with the outcomes `o` can be carried on until nothing causes a tick but what happens to `held`. */
  lemma {:induction false} CarryOn(d: Dag, tm: Timers, held: set<NodeID>, o: Statuses, ts: seq<Trigger>)
    returns (more: seq<Trigger>)
    requires WellFormed(d) && Live(d, {}, o) && IDs(ts) !! held
    requires Driven(d, tm, ts) && !Over(ts) && TriggersFollow(ts, o) && Paused(ts) == {}
    ensures Driven(d, tm, more) && !Over(more) && TriggersFollow(more, o) && IDs(more) !! held
    ensures NoTicks(d, tm, more, held) && Paused(more) == {}
    decreases |d.nodes| - |ts|
  {
    hide WellFormed, CanTrigger, Live, Paused, IDs, Driven, TriggersFollow, Over, CausesTick;
    HistoriesEnd(d, tm, ts);
    if t: Trigger :| CausesTick(t) && t.id !in held && CanTrigger(d, tm, ts, t) {
      var t' := Fitting(d, tm, o, ts, t);
      var longer := GoOn(d, tm, o, ts, t');
      more := CarryOn(d, tm, held, o, longer);
    } else {
      more := ts;
    }
  }

  lemma NoHistory(d: Dag, tm: Timers)
    requires WellFormed(d)
    ensures Driven(d, tm, []) && !Over([]) && IDs([]) == {} && Paused([]) == {}
  {
  }

  function Pausing(d: Dag, tm: Timers): set<NodeID> {
    set id | id in tm.pausing && id in d.nodes && IsApproval(d.nodes[id])
  }

  /** Pause whatever can be paused; no tick follows. */
  lemma {:induction false} PauseAll(d: Dag, tm: Timers, ts: seq<Trigger>) returns (more: seq<Trigger>)
    requires WellFormed(d) && Driven(d, tm, ts) && !Over(ts) && NoTicks(d, tm, ts, Pausing(d, tm))
    ensures Driven(d, tm, more) && !Over(more) && Stuck(d, tm, more) && LastState(d, more) == LastState(d, ts)
    decreases |d.nodes| - |ts|
  {
    hide WellFormed, RowsNow, LastState, Known, Asking;
    if id :| id in RowsNow(d, ts) && RowsNow(d, ts)[id] == ApprovalRow && id !in Known(ts) && id in tm.pausing {
      var longer := PauseOne(d, tm, ts, id);
      more := PauseAll(d, tm, longer);
    } else {
      more := ts;
      DrivenAccounted(d, tm, ts);
      NothingLeft(d, tm, ts);
    }
  }

  lemma PauseOne(d: Dag, tm: Timers, ts: seq<Trigger>, id: NodeID) returns (more: seq<Trigger>)
    requires WellFormed(d) && Driven(d, tm, ts) && !Over(ts) && NoTicks(d, tm, ts, Pausing(d, tm))
    requires id in RowsNow(d, ts) && RowsNow(d, ts)[id] == ApprovalRow && id !in Known(ts) && id in tm.pausing
    ensures Driven(d, tm, more) && !Over(more) && NoTicks(d, tm, more, Pausing(d, tm))
    ensures LastState(d, more) == LastState(d, ts) && |more| <= |d.nodes| && |more| == |ts| + 1
  {
    hide WellFormed, RowsNow, LastState;
    more := ts + [Pause(id)];
    assert more[..|ts|] == ts;
    assert Driven(d, tm, more);
    HistoriesEnd(d, tm, more);
    LedRows(d, tm, more);
    forall t: Trigger | CausesTick(t) && t.id !in Pausing(d, tm) ensures !CanTrigger(d, tm, more, t) {
      assert !CanTrigger(d, tm, ts, t);
    }
  }

  /** Waiting approvals have been paused or are refused, and approvals do not run. */
  lemma NothingLeft(d: Dag, tm: Timers, ts: seq<Trigger>)
    requires WellFormed(d) && !Over(ts) && NoTicks(d, tm, ts, Pausing(d, tm)) && Accounted(d, ts, RowsNow(d, ts))
    requires forall id :: id in RowsNow(d, ts) && RowsNow(d, ts)[id] == ApprovalRow && id in tm.pausing ==>
               id in Known(ts)
    ensures Stuck(d, tm, ts)
  {
    hide WellFormed, RowsNow, Known, Asking, Accounted;
    AccountedRows(d, ts, RowsNow(d, ts));
  }

  // ---- Necessity ----

  /** A stage listed before a need that is skipped is left pending for good. */
  lemma LateNeedStays(d: Dag, tm: Timers, o: Statuses, ts: seq<Trigger>, i: nat, j: nat)
    requires WellFormed(d) && Acyclic(d.Needs()) && TwoOutcomes(d, o) && LateNeed(d, i, j)
    requires Final(d, o, d.order[j]) == Skipped && Driven(d, tm, ts) && TriggersFollow(ts, o)
    ensures !AllDone(LastState(d, ts).status)
  {
    hide WellFormed, Acyclic, TickState, TickRows, Possible, EventsFollow, EventFollows, TruthfulRows, Final, Driven;
    DrivenPossible(d, tm, ts);
    DrivenFollows(d, tm, ts, o);
    StuckForever(d, o, BeforeTick(ts), i, j);
    TickStuck(d, o, RowsBefore(d, ts), News(ts), i, j);
    UnfinishedNotDone(d, LastState(d, ts), d.order[i]);
  }

  lemma UnfinishedNotDone(d: Dag, st: State, id: NodeID)
    requires id in st.status && !st.status[id].IsTerminal()
    ensures !AllDone(st.status)
  {
  }

  lemma {:induction false} KnownIDs(ts: seq<Trigger>)
    ensures Known(ts).Keys <= IDs(ts) && News(ts).Keys <= IDs(ts)
  {
    if ts != [] {
      KnownIDs(ts[..|ts| - 1]);
      IDsSnoc(ts);
      hide IDs;
    }
  }

  /** An approval that no event is about has not been decided. */
  lemma {:induction false} Untouched(d: Dag, tm: Timers, ts: seq<Trigger>, id: NodeID)
    requires WellFormed(d) && Driven(d, tm, ts) && id in d.nodes && id !in IDs(ts) && IsApproval(d.nodes[id])
    ensures RowsFor(d, RowsNow(d, ts)) && RowsNow(d, ts)[id] in {PendingRow, ApprovalRow}
    ensures Covers(d, LastState(d, ts)) && LastState(d, ts).status[id] != Success
  {
    hide WellFormed, RowsNow, LastState, RowsBefore, CausesTick, Led, IDs, News, Known, TickRows, TickState, IsApproval;
    hide Counted, Spent, DecidedRows, Kinds, TickReady, Asking;
    if ts == [] {
      FirstTick(d);
      TickRow(d, InitialRows(d), map[], id);
    } else {
      var n := |ts| - 1;
      IDsSnoc(ts);
      Untouched(d, tm, ts[..n], id);
      LedRows(d, tm, ts);
      if CausesTick(ts[n]) {
        RowsNowAre(d, ts);
        KnownIDs(ts);
        UntouchedLed(d, RowsNow(d, ts[..n]), ts[n], id);
        TickRow(d, Led(RowsNow(d, ts[..n]), ts[n]), News(ts), id);
      }
    }
  }

  lemma UntouchedLed(d: Dag, rows: Rows, t: Trigger, id: NodeID)
    requires RowsFor(d, rows) && t.id in rows && id != t.id && id in rows
    ensures RowsFor(d, Led(rows, t)) && Led(rows, t)[id] == rows[id]
  {
  }

  lemma DoneHistory(d: Dag, tm: Timers, o: Statuses, ts: seq<Trigger>, id: NodeID)
    requires WellFormed(d) && Acyclic(d.Needs()) && Live(d, {}, o) && Driven(d, tm, ts) && TriggersFollow(ts, o)
    requires id in d.nodes && IsApproval(d.nodes[id]) && Final(d, o, id) != Skipped
    requires AllDone(LastState(d, ts).status)
    ensures id in LastState(d, ts).status && LastState(d, ts).status[id] == Success
  {
    hide WellFormed, Acyclic, Final, Driven, TriggersFollow, TickRows, TickState, RowsAfter, EventsFollow, EventFollows;
    hide Possible;
    DrivenPossible(d, tm, ts);
    DrivenFollows(d, tm, ts, o);
    RowsTruthful(d, o, BeforeTick(ts));
    TickTruthful(d, o, RowsBefore(d, ts), News(ts));
    assert TruthfulStatus(d, o, id, LastState(d, ts).status[id]);
    FinalValues(d, o, id);
  }

  /** An approval that is handed out while no other has failed can pause the run for good. */
  lemma PauseStops(d: Dag, tm: Timers, o: Statuses, id: NodeID)
    requires WellFormed(d) && Acyclic(d.Needs()) && Live(d, {}, o)
    requires id in tm.pausing && id in d.nodes && IsApproval(d.nodes[id]) && Final(d, o, id) != Skipped
    ensures !EventsFinish(d, tm)
  {
    hide WellFormed, Acyclic, Driven, Stuck, RowsNow, LastState, AllDone, Over, NoTicks, Live, Final, IDs, Paused;
    NoHistory(d, tm);
    var ts := CarryOn(d, tm, Pausing(d, tm), o, []);
    var more := PauseAll(d, tm, ts);
    Untouched(d, tm, ts, id);
    if AllDone(LastState(d, ts).status) {
      DoneHistory(d, tm, o, ts, id);
    }
  }

  // ---- Two approvals at a time ----

  /** If the run asks for votes, some approval other than `x` waits for one. */
  ghost predicate OtherAsked(d: Dag, ts: seq<Trigger>, x: NodeID)
    requires WellFormed(d)
  {
    Asking(d, ts) ==> exists y :: y != x && Waits(d, ts, y)
  }

  ghost predicate Waits(d: Dag, ts: seq<Trigger>, y: NodeID)
    requires WellFormed(d)
  {
    y in RowsNow(d, ts) && RowsNow(d, ts)[y] == ApprovalRow && y !in Known(ts)
  }

  lemma StillOtherAsked(d: Dag, tm: Timers, o: Statuses, ts: seq<Trigger>, t: Trigger, more: seq<Trigger>, x: NodeID)
    requires WellFormed(d) && Longer(d, tm, o, ts, t, more) && x in d.nodes && t.id != x && Waits(d, ts, x)
    requires t.Approval? || OtherAsked(d, ts, x)
    ensures Waits(d, more, x) && OtherAsked(d, more, x)
  {
    hide WellFormed, RowsNow, RowsBefore, News, Known, IDs, Paused, TriggersFollow, TickReady, IsApproval;
    KnownMore(more);
    NowRow(d, tm, more, x);
    if HandsOut(d, more) {
      var y :| Fresh(d, more, y) && y in d.nodes && IsApproval(d.nodes[y]);
      NowRow(d, tm, more, y);
      assert y != x && Waits(d, more, y);
    } else if Asking(d, more) {
      var y :| y != x && Waits(d, ts, y);
      WaitingInNodes(d, tm, ts, y);
      NowRow(d, tm, more, y);
      assert Waits(d, more, y);
    }
  }

  lemma WaitingInNodes(d: Dag, tm: Timers, ts: seq<Trigger>, y: NodeID)
    requires WellFormed(d) && Driven(d, tm, ts) && y in RowsNow(d, ts)
    ensures y in d.nodes
  {
    hide WellFormed, RowsNow, Driven, Accounted;
    DrivenAccounted(d, tm, ts);
    AccountedRows(d, ts, RowsNow(d, ts));
  }

  /** An approval without a timer that waits while others are decided is left without votes. */
  lemma {:induction false} Starve(d: Dag, tm: Timers, o: Statuses, ts: seq<Trigger>, x: NodeID)
    returns (more: seq<Trigger>)
    requires WellFormed(d) && Live(d, {}, o) && x in d.nodes && x !in tm.approving
    requires Driven(d, tm, ts) && !Over(ts) && TriggersFollow(ts, o) && Paused(ts) == {}
    requires Waits(d, ts, x) && OtherAsked(d, ts, x)
    ensures Driven(d, tm, more) && !Over(more) && Waits(d, more, x) && NoTicks(d, tm, more, {}) && Paused(more) == {}
    decreases |d.nodes| - |ts|
  {
    hide WellFormed, CanTrigger, Live, Paused, IDs, Driven, TriggersFollow, Over, CausesTick, OtherAsked, Waits;
    HistoriesEnd(d, tm, ts);
    if t: Trigger :| CausesTick(t) && t.id != x && CanTrigger(d, tm, ts, t) {
      var t' := Fitting(d, tm, o, ts, t);
      var longer := GoOn(d, tm, o, ts, t');
      StillOtherAsked(d, tm, o, ts, t', longer, x);
      more := Starve(d, tm, o, longer, x);
    } else {
      more := ts;
      Starved(d, tm, ts, x);
    }
  }

  lemma Starved(d: Dag, tm: Timers, ts: seq<Trigger>, x: NodeID)
    requires WellFormed(d) && x !in tm.approving && !Over(ts) && Waits(d, ts, x) && OtherAsked(d, ts, x)
    requires forall t: Trigger :: CausesTick(t) && t.id != x ==> !CanTrigger(d, tm, ts, t)
    ensures NoTicks(d, tm, ts, {})
  {
    hide WellFormed, RowsNow, Known, Asking;
    if y :| Asking(d, ts) && y != x && Waits(d, ts, y) {
      AskedCanApprove(d, tm, ts, y);
    }
  }

  lemma AskedCanApprove(d: Dag, tm: Timers, ts: seq<Trigger>, y: NodeID)
    requires WellFormed(d) && !Over(ts) && Asking(d, ts) && Waits(d, ts, y)
    ensures CanTrigger(d, tm, ts, Approval(y)) && CausesTick(Approval(y)) && Approval(y).id == y
  {
  }

  /** How the rows after a history show in the scheduler at its last tick. */
  lemma {:induction false} LastRow(d: Dag, tm: Timers, ts: seq<Trigger>, x: NodeID)
    requires WellFormed(d) && Driven(d, tm, ts) && x in d.nodes
    ensures Covers(d, LastState(d, ts)) && x in RowsNow(d, ts)
    ensures RowsNow(d, ts)[x] == ApprovalRow ==> LastState(d, ts).status[x] == WaitingApproval
    ensures RowsNow(d, ts)[x] == FailedRow ==> LastState(d, ts).status[x] == Failed
  {
    hide WellFormed, RowsNow, LastState, RowsBefore, Known, News, TickRows, TickState, TickReady, Led, Asking;
    hide Accounted, IsApproval, About;
    if ts == [] {
      FirstTick(d);
      TickRow(d, InitialRows(d), map[], x);
    } else {
      var n := |ts| - 1;
      LedRows(d, tm, ts);
      if CausesTick(ts[n]) {
        DrivenAccounted(d, tm, ts[..n]);
        AccountedRows(d, ts[..n], RowsNow(d, ts[..n]));
        LedWaiting(RowsNow(d, ts[..n]), Known(ts[..n]), ts[n], x, d);
        RowsNowAre(d, ts);
        TickRow(d, RowsBefore(d, ts), News(ts), x);
      } else {
        LastRow(d, tm, ts[..n], x);
      }
    }
  }

  lemma WaitsNotDone(d: Dag, tm: Timers, ts: seq<Trigger>, x: NodeID)
    requires WellFormed(d) && Driven(d, tm, ts) && x in d.nodes && Waits(d, ts, x)
    ensures !AllDone(LastState(d, ts).status)
  {
    hide WellFormed, Driven, RowsNow, LastState, Known;
    LastRow(d, tm, ts, x);
    UnfinishedNotDone(d, LastState(d, ts), x);
  }

  /** Both of two parallel approvals wait when nothing else can happen. */
  lemma BothWait(d: Dag, tm: Timers, o: Statuses, ts: seq<Trigger>, a: NodeID, b: NodeID)
    requires WellFormed(d) && Acyclic(d.Needs()) && TwoOutcomes(d, o) && LateNeedsRun(d, o) && Parallel(d, o, a, b)
    requires Driven(d, tm, ts) && TriggersFollow(ts, o) && a !in IDs(ts)
    requires forall id :: id in RowsNow(d, ts) && RowsNow(d, ts)[id] in {RunningRow, ApprovalRow} ==> id in {a, b}
    ensures a in RowsNow(d, ts) && RowsNow(d, ts)[a] == ApprovalRow
  {
    hide WellFormed, Acyclic, LateNeedsRun, Driven, TriggersFollow, RowsNow, LastState, Coherent, Faithful, Stored;
    hide Final, IDs, IsApproval, Reaches, AllFinished;
    LastCoherent(d, tm, o, ts);
    Untouched(d, tm, ts, a);
    var st := LastState(d, ts);
    StoredWaiting(st, a);
    if RowsNow(d, ts)[a] == PendingRow {
      NotYet(d, o, st, a);
      var x := DeepestPending(d, st, a);
      var u := UnfinishedNeed(d, st, x);
      StoredWaiting(st, u);
      EdgeReaches(d.Needs(), x, u, u);
      ReachesOn(d.Needs(), a, x, u);
    }
  }

  lemma ReachesOn(g: Digraph, a: NodeID, x: NodeID, u: NodeID)
    requires (x == a || Reaches(g, a, x)) && Reaches(g, x, u)
    ensures Reaches(g, a, u)
  {
    if x != a {
      var p :| |p| >= 2 && Walk(g, p) && p[0] == a && p[|p| - 1] == x;
      var q :| |q| >= 2 && Walk(g, q) && q[0] == x && q[|q| - 1] == u;
      var r := p + q[1..];
      forall i, j | 0 <= i < |r| && j == i + 1 && j < |r| ensures Edge(g, r[i], r[j]) {
        if j < |p| {
          assert Edge(g, p[i], p[j]);
        } else {
          assert Edge(g, q[i - |p| + 1], q[j - |p| + 1]);
        }
      }
      assert Walk(g, r) && r[0] == a && r[|r| - 1] == u;
    }
  }

  lemma NotYet(d: Dag, o: Statuses, st: State, a: NodeID)
    requires WellFormed(d) && Acyclic(d.Needs()) && OutcomesFor(d, o) && Coherent(d, st) && Faithful(st, o)
    requires a in d.nodes && Final(d, o, a) != Skipped && st.status[a] in {Pending, Ready, Skipped}
    ensures st.status[a] == Pending
  {
    CoherentTracks(d, st);
    if st.status[a] == Skipped {
      TerminalIsFinal(d, o, st, a);
    }
  }

  lemma UnfinishedNeed(d: Dag, st: State, x: NodeID) returns (u: NodeID)
    requires WellFormed(d) && Coherent(d, st) && x in d.nodes && !AllFinished(d.nodes[x], st.status)
    requires forall u :: u in d.nodes[x].ins ==> u in d.nodes && st.status[u] != Pending
    ensures u in d.nodes && u in st.status && Edge(d.Needs(), x, u) && st.status[u] in {Running, WaitingApproval}
  {
    CoherentTracks(d, st);
    u :| u in d.nodes[x].ins && !Finished(st.status, u);
  }

  /** Two parallel approvals, one of them without a timer that approves, can leave the run without an end. */
  lemma StrandStops(d: Dag, tm: Timers, o: Statuses, a: NodeID, b: NodeID)
    requires WellFormed(d) && Acyclic(d.Needs()) && LiveOrdered(d, {}) && NeverPauses(d, tm)
    requires Live(d, {}, o) && Parallel(d, o, a, b) && b !in tm.approving
    ensures !EventsFinish(d, tm)
  {
    hide WellFormed, Acyclic, LiveOrdered, NeverPauses, Driven, Stuck, AllDone, Over, NoTicks, Live, IDs, Paused, Waits;
    hide OtherAsked, LastState, Parallel;
    NoHistory(d, tm);
    var ts := CarryOn(d, tm, {a, b}, o, []);
    var x, start := Strand(d, tm, o, ts, a, b);
    var more := Starve(d, tm, o, start, x);
    WaitsNotDone(d, tm, more, x);
    UnpausedStuck(d, tm, more);
  }

  lemma UnpausedStuck(d: Dag, tm: Timers, ts: seq<Trigger>)
    requires WellFormed(d) && Acyclic(d.Needs()) && NeverPauses(d, tm)
    requires Driven(d, tm, ts) && NoTicks(d, tm, ts, {}) && Paused(ts) == {}
    ensures Stuck(d, tm, ts)
  {
    hide WellFormed, Acyclic, NeverPauses, Driven, Paused, RowsNow, Known, Asking;
    forall t: Trigger | !t.Rejection? ensures !CanTrigger(d, tm, ts, t) {
      if t.Pause? && CanTrigger(d, tm, ts, t) {
        PauseHandedOut(d, tm, ts, t.id);
      }
    }
  }

  /** Where the starving begins: with one that is refused already, or by approving `a` while `b` waits. */
  lemma Strand(d: Dag, tm: Timers, o: Statuses, ts: seq<Trigger>, a: NodeID, b: NodeID)
    returns (x: NodeID, start: seq<Trigger>)
    requires WellFormed(d) && Acyclic(d.Needs()) && LiveOrdered(d, {})
    requires Live(d, {}, o) && Parallel(d, o, a, b) && b !in tm.approving
    requires Driven(d, tm, ts) && !Over(ts) && TriggersFollow(ts, o) && Paused(ts) == {} && IDs(ts) !! {a, b}
    requires NoTicks(d, tm, ts, {a, b})
    ensures x in d.nodes && x !in tm.approving
    ensures Driven(d, tm, start) && !Over(start) && TriggersFollow(start, o) && Paused(start) == {}
    ensures Waits(d, start, x) && OtherAsked(d, start, x)
  {
    hide WellFormed, Acyclic, LiveOrdered, Driven, TriggersFollow, RowsNow, Known, IDs, Paused, Asking, Live, Over;
    hide Final, Reaches, IsApproval;
    LiveTwo(d, {}, o);
    LiveOrderedRuns(d, {}, o);
    NothingWaitsDecided(d, tm, ts);
    HeldRows(d, tm, ts, {a, b});
    if y :| y in RowsNow(d, ts) && RowsNow(d, ts)[y] == ApprovalRow && y !in {a, b} {
      x, start := y, ts;
      WaitingInNodes(d, tm, ts, y);
    } else {
      BothWait(d, tm, o, ts, a, b);
      BothWait(d, tm, o, ts, b, a);
      x, start := b, ts;
      if Asking(d, ts) {
        start := ApproveOne(d, tm, o, ts, a, b);
      }
    }
  }

  /** Nothing runs, and approvals that are not held wait in vain. */
  lemma HeldRows(d: Dag, tm: Timers, ts: seq<Trigger>, held: set<NodeID>)
    requires WellFormed(d) && Driven(d, tm, ts) && !Over(ts) && NoTicks(d, tm, ts, held)
    requires forall id :: id in held && id in d.nodes ==> IsApproval(d.nodes[id])
    ensures forall id :: id in RowsNow(d, ts) ==> RowsNow(d, ts)[id] != RunningRow
    ensures forall id ::
              id in RowsNow(d, ts) && id !in Known(ts) && id !in held && RowsNow(d, ts)[id] == ApprovalRow ==>
              !Asking(d, ts) && id !in tm.approving
  {
    hide WellFormed, Driven, RowsNow, Known, Asking, Accounted;
    DrivenAccounted(d, tm, ts);
    AccountedRows(d, ts, RowsNow(d, ts));
    forall id | id in RowsNow(d, ts)
      ensures RowsNow(d, ts)[id] != RunningRow
      ensures RowsNow(d, ts)[id] == ApprovalRow && id !in Known(ts) && id !in held ==>
                !Asking(d, ts) && id !in tm.approving
    {
      if id !in held {
        assert !CanTrigger(d, tm, ts, Completion(id, true));
        assert !CanTrigger(d, tm, ts, Approval(id));
      }
    }
  }

  lemma ApproveOne(d: Dag, tm: Timers, o: Statuses, ts: seq<Trigger>, a: NodeID, b: NodeID) returns (more: seq<Trigger>)
    requires WellFormed(d) && Live(d, {}, o) && a in d.nodes && b in d.nodes && a != b && IsApproval(d.nodes[a])
    requires Driven(d, tm, ts) && !Over(ts) && TriggersFollow(ts, o) && Paused(ts) == {} && Asking(d, ts)
    requires Waits(d, ts, a) && Waits(d, ts, b)
    ensures Driven(d, tm, more) && !Over(more) && TriggersFollow(more, o) && Paused(more) == {}
    ensures Waits(d, more, b) && OtherAsked(d, more, b)
  {
    hide WellFormed, Driven, TriggersFollow, RowsNow, Known, IDs, Paused, Asking, OtherAsked;
    assert CanTrigger(d, tm, ts, Approval(a)) && TriggerFollows(Approval(a), o);
    more := GoOn(d, tm, o, ts, Approval(a));
    StillOtherAsked(d, tm, o, ts, Approval(a), more, b);
  }

  // ---- The condition ----

  /** Events alone finish every run that no rejection ends, if and only if no stage is listed before a need that can be
      skipped while approvals succeed, no approval that pauses the run is handed out, and an approval that can wait
      beside another one has a timer that approves. */
  lemma EventsFinishExactly(d: Dag, tm: Timers)
    requires WellFormed(d) && Acyclic(d.Needs())
    ensures EventsFinish(d, tm) <==> LiveOrdered(d, {}) && NeverPauses(d, tm) && NoneStranded(d, tm)
  {
    hide WellFormed, Acyclic, Driven, Stuck, LastState, AllDone, LiveOrdered, Live, NeverPauses, NoneStranded, Over;
    if !LiveOrdered(d, {}) {
      LateStops(d, tm);
    } else if !NeverPauses(d, tm) {
      var id, o := PausingOutcomes(d, tm);
      PauseStops(d, tm, o, id);
    } else if !NoneStranded(d, tm) {
      var o, a, b := StrandingOutcomes(d, tm);
      StrandStops(d, tm, o, a, b);
    } else {
      forall ts | Driven(d, tm, ts) && !Over(ts) && Stuck(d, tm, ts) ensures AllDone(LastState(d, ts).status) {
        FinishedHistory(d, tm, ts);
      }
    }
  }

  lemma LateStops(d: Dag, tm: Timers)
    requires WellFormed(d) && Acyclic(d.Needs()) && !LiveOrdered(d, {})
    ensures !EventsFinish(d, tm)
  {
    hide WellFormed, Acyclic, Driven, Stuck, LastState, AllDone, LiveOrdered, Live, NoTicks, Over, IDs, Paused, Final;
    var o, i, j := BlockingOutcomes(d, {});
    LiveTwo(d, {}, o);
    NoHistory(d, tm);
    var ts := CarryOn(d, tm, {}, o, []);
    FewerHeld(d, tm, ts);
    var more := PauseAll(d, tm, ts);
    LateNeedStays(d, tm, o, ts, i, j);
  }

  lemma FewerHeld(d: Dag, tm: Timers, ts: seq<Trigger>)
    requires WellFormed(d) && NoTicks(d, tm, ts, {})
    ensures NoTicks(d, tm, ts, Pausing(d, tm))
  {
    hide WellFormed, CanTrigger;
  }

  lemma PausingOutcomes(d: Dag, tm: Timers) returns (id: NodeID, o: Statuses)
    requires WellFormed(d) && Acyclic(d.Needs()) && !NeverPauses(d, tm)
    ensures id in tm.pausing && id in d.nodes && IsApproval(d.nodes[id]) && Live(d, {}, o) && Final(d, o, id) != Skipped
  {
    hide WellFormed, Acyclic, Final;
    id, o :| id in tm.pausing && id in d.nodes && IsApproval(d.nodes[id]) && Live(d, {}, o)
             && Final(d, o, id) != Skipped;
  }

  lemma StrandingOutcomes(d: Dag, tm: Timers) returns (o: Statuses, a: NodeID, b: NodeID)
    requires WellFormed(d) && Acyclic(d.Needs()) && !NoneStranded(d, tm)
    ensures Live(d, {}, o) && Parallel(d, o, a, b) && b !in tm.approving
  {
    hide WellFormed, Acyclic;
    o, a, b :| Live(d, {}, o) && Parallel(d, o, a, b) && b !in tm.approving;
  }

  // ---- The end of a run that is done ----

  /** If the run asks for votes, some approval waits, or a pause has made it fail. */
  ghost predicate Asked(d: Dag, ts: seq<Trigger>)
    requires WellFormed(d)
  {
    Asking(d, ts) ==> exists y :: y in d.nodes && y in RowsNow(d, ts) && RowsNow(d, ts)[y] in {ApprovalRow, FailedRow}
  }

  /** A waiting approval that has been decided has been paused. */
  ghost predicate PausedWait(d: Dag, ts: seq<Trigger>)
    requires WellFormed(d)
  {
    forall y :: y in RowsNow(d, ts) && RowsNow(d, ts)[y] == ApprovalRow && y in Known(ts) ==> Known(ts)[y] == TimedOut
  }

  lemma {:induction false} WaitingIsPaused(d: Dag, tm: Timers, ts: seq<Trigger>)
    requires WellFormed(d) && Driven(d, tm, ts) && !Over(ts)
    ensures PausedWait(d, ts)
  {
    if ts != [] {
      var n := |ts| - 1;
      hide WellFormed, TickRows, Accounted, Led, About, RowsBefore, LastState, RowsNow, FinalRows, Asking, News;
      LedRows(d, tm, ts);
      if CausesTick(ts[n]) {
        DrivenAccounted(d, tm, ts[..n]);
        RowsNowAre(d, ts);
        TickAccounted(d, ts, RowsNow(d, ts[..n]));
        FinalNotWaiting(RowsNow(d, ts));
      } else {
        WaitingIsPaused(d, tm, ts[..n]);
      }
    }
  }

  lemma {:induction false} DrivenAsked(d: Dag, tm: Timers, ts: seq<Trigger>)
    requires WellFormed(d) && Driven(d, tm, ts) && !Over(ts)
    ensures Asked(d, ts)
  {
    hide WellFormed, RowsNow, RowsBefore, News, Known, TickReady, IsApproval, About, LastState, PausedWait;
    if HandsOut(d, ts) {
      var y :| Fresh(d, ts, y) && y in d.nodes && IsApproval(d.nodes[y]);
      FreshAsked(d, tm, ts, y);
    } else if Asking(d, ts) {
      var n := |ts| - 1;
      DrivenAsked(d, tm, ts[..n]);
      WaitingIsPaused(d, tm, ts[..n]);
      StillAsked(d, tm, ts);
    }
  }

  lemma FreshAsked(d: Dag, tm: Timers, ts: seq<Trigger>, y: NodeID)
    requires WellFormed(d) && Driven(d, tm, ts) && Fresh(d, ts, y) && y in d.nodes && IsApproval(d.nodes[y])
    ensures y in RowsNow(d, ts) && RowsNow(d, ts)[y] in {ApprovalRow, FailedRow}
  {
    hide WellFormed, RowsNow, Known;
    RowsNowAre(d, ts);
    hide TickRows, TickState, TickReady, RowsBefore, News;
    RowsBeforeFor(d, tm, ts);
    TickRow(d, RowsBefore(d, ts), News(ts), y);
  }

  /** Rows before a tick are about the stages of the pipeline. */
  lemma RowsBeforeFor(d: Dag, tm: Timers, ts: seq<Trigger>)
    requires WellFormed(d) && Driven(d, tm, ts)
    ensures RowsFor(d, RowsBefore(d, ts))
  {
    hide WellFormed, RowsNow, TickRows, Known, News;
    DrivenAccounted(d, tm, ts);
    RowsNowAre(d, ts);
    TickKeys(d, RowsBefore(d, ts), News(ts));
  }

  lemma TickKeys(d: Dag, rows: Rows, decided: Decisions)
    requires WellFormed(d)
    ensures TickRows(d, rows, decided).Keys == rows.Keys
  {
  }

  lemma StillAsked(d: Dag, tm: Timers, ts: seq<Trigger>)
    requires WellFormed(d) && Driven(d, tm, ts) && ts != [] && !Over(ts) && Asking(d, ts) && !HandsOut(d, ts)
    requires Asked(d, ts[..|ts| - 1]) && PausedWait(d, ts[..|ts| - 1])
    ensures Asked(d, ts)
  {
    var n := |ts| - 1;
    hide WellFormed, RowsNow, RowsBefore, Known, News, TickReady, HandsOut, IsApproval, About, LastState;
    var y :| y in d.nodes && y in RowsNow(d, ts[..n]) && RowsNow(d, ts[..n])[y] in {ApprovalRow, FailedRow};
    LedRows(d, tm, ts);
    if ts[n].Completion? {
      NowRow(d, tm, ts, y);
      KnownSame(ts);
    }
  }

  lemma KnownSame(ts: seq<Trigger>)
    requires ts != [] && ts[|ts| - 1].Completion?
    ensures Known(ts) == Known(ts[..|ts| - 1])
  {
  }

  /** The status of the run before finalizeRun: it runs, or it asks for votes. */
  ghost function RunNow(d: Dag, ts: seq<Trigger>): R.RunStatus
    requires WellFormed(d)
  {
    if Asking(d, ts) then R.Approval else R.Running
  }

  /** When a tick finds the run done, the run can take the status that its stages give it. */
  lemma FinalizeSucceeds(d: Dag, tm: Timers, ts: seq<Trigger>)
    requires WellFormed(d) && Driven(d, tm, ts) && !Over(ts) && AllDone(LastState(d, ts).status)
    ensures R.TransitionVerdict(RunNow(d, ts), FinalMark(OutcomeOf(LastState(d, ts).status))).Done?
  {
    hide WellFormed, RowsNow, LastState, Asking, Driven;
    DrivenAsked(d, tm, ts);
    if y :| Asking(d, ts) && y in d.nodes && y in RowsNow(d, ts) && RowsNow(d, ts)[y] in {ApprovalRow, FailedRow} {
      LastRow(d, tm, ts, y);
      assert !LastState(d, ts).status[y].IsTerminal() || LastState(d, ts).status[y] == Failed;
    }
  }

  // ---- Examples ----

  /** One approval after the other needs no order: with v listed first, needing u, and u needing the approval w, u can
      be skipped by a rejection only. */
  lemma RejectionsDoNotCount(d: Dag, v: NodeID, u: NodeID, w: NodeID)
    requires WellFormed(d) && Acyclic(d.Needs()) && d.order == [v, u, w] && d.nodes.Keys == {v, u, w}
    requires d.nodes[v].ins == [u] && d.nodes[u].ins == [w] && d.nodes[w].ins == [] && IsApproval(d.nodes[w])
    requires !OnFailure(d.nodes[u]) && !Always(d.nodes[u]) && !OnFailure(d.nodes[w])
    ensures !SkipOrdered(d) && LiveOrdered(d, {})
  {
    OrderNodes(d);
    hide WellFormed, Acyclic;
    assert d.order[0] == v && d.order[1] == u && d.order[2] == w;
    assert LateNeed(d, 0, 1) && CanSkip(d.nodes[u]);
    assert !CanFail(d, {}, w) && !CanSkipLive(d, {}, w);
    assert !SkipsOrFails(d, {}, w);
    assert !CanSkipLive(d, {}, u);
  }

  /** Two stages are enough to strand a run: approvals without needs and without timers. */
  lemma TwoApprovals(d: Dag, a: NodeID, b: NodeID)
    requires WellFormed(d) && Acyclic(d.Needs()) && d.nodes.Keys == {a, b} && a != b
    requires d.nodes[a].ins == [] && d.nodes[b].ins == [] && IsApproval(d.nodes[a]) && IsApproval(d.nodes[b])
    requires !OnFailure(d.nodes[a]) && !OnFailure(d.nodes[b])
    ensures !EventsFinish(d, Timers({}, {}))
  {
    var o := AllSucceed(d);
    AllLive(d, {});
    RootRuns(d, o, a);
    RootRuns(d, o, b);
    NoWalk(d, a, b);
    NoWalk(d, b, a);
    assert Parallel(d, o, a, b) && b !in Timers({}, {}).approving;
    EventsFinishExactly(d, Timers({}, {}));
  }

  lemma RootRuns(d: Dag, o: Statuses, id: NodeID)
    requires WellFormed(d) && Acyclic(d.Needs()) && OutcomesFor(d, o) && id in d.nodes
    requires d.nodes[id].ins == [] && !OnFailure(d.nodes[id])
    ensures Final(d, o, id) != Skipped
  {
    var status := FinalDecision(d, o, id);
  }

  lemma NoWalk(d: Dag, a: NodeID, b: NodeID)
    requires a in d.nodes && d.nodes[a].ins == []
    ensures !Reaches(d.Needs(), a, b)
  {
    assert forall x :: !Edge(d.Needs(), a, x);
    if p :| |p| >= 2 && Walk(d.Needs(), p) && p[0] == a && p[|p| - 1] == b {
      FirstEdge(d.Needs(), p);
    }
  }

  lemma FirstEdge(g: Digraph, p: seq<NodeID>)
    requires Walk(g, p) && |p| >= 2
    ensures Edge(g, p[0], p[1])
  {
  }
}
