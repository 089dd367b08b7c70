/** Runs in which ticks happen only when an event causes them. */
module TickEvents {
  import opened Sequences
  import opened Digraphs
  import opened Pipelines
  import opened Dags
  import opened Schedulers
  import opened Runs
  import opened Ticks
  import opened TickLiveness

  // ---- A tick that leaves nothing to wait for ----

  /** No stage runs and no approval waits. */
  predicate Idle(rows: Rows) {
    forall id :: id in rows ==> rows[id] !in {RunningRow, ApprovalRow}
  }

  lemma IdleStored(d: Dag, st: State)
    requires WellFormed(d) && Coherent(d, st)
    ensures Idle(Stored(st)) <==> st.dispatched == {}
    ensures AllDone(st.status) ==> Idle(Stored(st))
  {
    CoherentTracks(d, st);
    hide WellFormed, Coherent;
    var rows := Stored(st);
    if id :| id in st.dispatched {
      assert rows[id] in {RunningRow, ApprovalRow};
    }
    if id :| id in rows && rows[id] in {RunningRow, ApprovalRow} {
      assert id in st.dispatched;
    }
  }

  /** A tick that skips no need listed late leaves nothing that runs or waits exactly when it finds the run done. */
  lemma TickSettles(d: Dag, st: State, decided: Decisions)
    requires WellFormed(d) && Acyclic(d.Needs()) && Coherent(d, st)
    requires NoLateSkip(d, LongStep(d, st, Tick(decided)))
    ensures Idle(TickRows(d, Stored(st), decided)) <==> AllDone(TickState(d, Stored(st), decided).status)
  {
    hide WellFormed, Coherent, NoLateSkip, Idle, AllDone, Acyclic;
    TickAgrees(d, st, decided);
    var resolved := Resolved(d, st, decided, |d.order|);
    SweepCoherent(d, resolved, |d.order|);
    WaitingWithoutLateSkip(d, resolved);
    IdleStored(d, Next(d, resolved));
  }

  /** Whatever happened before, in whatever order: a tick leaves nothing that runs or waits exactly when it finds
      the run done. So the run never waits for an event that cannot come. */
  lemma TickNeverStalls(d: Dag, events: seq<Event>, decided: Decisions)
    requires WellFormed(d) && Acyclic(d.Needs()) && SkipOrdered(d) && Possible(d, InitialRows(d), events)
    ensures var rows := RowsAfter(d, InitialRows(d), events);
            Idle(TickRows(d, rows, decided)) <==> AllDone(TickState(d, rows, decided).status)
  {
    var st := LongAfter(d, events);
    hide WellFormed, Coherent, SkipOrdered, NoLateSkip, Idle, AllDone, Acyclic, LongStep, Happens;
    AnyTickHappens(Stored(st), decided);
    LongStepCoherent(d, st, Tick(decided));
    SkipOrderedNone(d, LongStep(d, st, Tick(decided)));
    TickSettles(d, st, decided);
  }

  // ---- Histories in which only events cause ticks ----

  /** After the tick at the start a tick follows every completion of a running stage (OnStageComplete) and every
      approval (ResumeOrchestrate). A timeout that pauses the run causes none: the next tick finds the approval
      failed. A rejection, by vote or by timeout, causes none either, and it ends the run through its own row. */
  datatype Trigger =
    | Completion(id: NodeID, success: bool)
    | Approval(id: NodeID)
    | Pause(id: NodeID)
    | Rejection(id: NodeID)

  predicate CausesTick(t: Trigger) {
    t.Completion? || t.Approval?
  }

  function Lead(t: Trigger): seq<Event> {
    if t.Completion? then [StageDone(t.id, t.success)] else []
  }

  /** The decisions made by the end of the history. */
  function Known(ts: seq<Trigger>): Decisions {
    if ts == [] then map[]
    else
      var before, t := Known(ts[..|ts| - 1]), ts[|ts| - 1];
      match t
      case Completion(_, _) => before
      case Approval(id) => before[id := Approved]
      case Pause(id) => before[id := TimedOut]
      case Rejection(id) => before[id := Rejected]
  }

  /** The decisions that the last tick finds. */
  function News(ts: seq<Trigger>): Decisions {
    if ts == [] || CausesTick(ts[|ts| - 1]) then Known(ts) else News(ts[..|ts| - 1])
  }

  /** Everything before the last tick: the tick at the start is the last one if no other was caused. */
  function BeforeTick(ts: seq<Trigger>): seq<Event> {
    if ts == [] then []
    else
      var n := |ts| - 1;
      if CausesTick(ts[n]) then BeforeTick(ts[..n]) + [Tick(News(ts[..n]))] + Lead(ts[n]) else BeforeTick(ts[..n])
  }

  function RowsBefore(d: Dag, ts: seq<Trigger>): Rows
    requires WellFormed(d)
  {
    RowsAfter(d, InitialRows(d), BeforeTick(ts))
  }

  /** The rows after the last tick. */
  function RowsNow(d: Dag, ts: seq<Trigger>): Rows
    requires WellFormed(d)
  {
    TickRows(d, RowsBefore(d, ts), News(ts))
  }

  /** The scheduler at the end of the last tick. */
  function LastState(d: Dag, ts: seq<Trigger>): State
    requires WellFormed(d)
  {
    TickState(d, RowsBefore(d, ts), News(ts))
  }

  /** A rejection has ended the run. */
  predicate Over(ts: seq<Trigger>) {
    ts != [] && ts[|ts| - 1].Rejection?
  }

  /** The last tick has handed out an approval. */
  ghost predicate HandsOut(d: Dag, ts: seq<Trigger>)
    requires WellFormed(d)
  {
    exists id :: id in TickReady(d, RowsBefore(d, ts), News(ts)) && id in d.nodes && IsApproval(d.nodes[id])
  }

  /** The run is in the status approval, without which no vote is accepted: handing out an approval sets it
      (CreateApproval), and an approval sets the run back to running before the tick that it causes. */
  ghost predicate Asking(d: Dag, ts: seq<Trigger>)
    requires WellFormed(d)
  {
    if ts == [] then HandsOut(d, ts)
    else
      match ts[|ts| - 1]
      case Completion(_, _) => Asking(d, ts[..|ts| - 1]) || HandsOut(d, ts)
      case Approval(_) => HandsOut(d, ts)
      case Pause(_) => Asking(d, ts[..|ts| - 1])
      case Rejection(_) => false
  }

  /** The approvals with a timer that approves, and those with a timer that pauses the run. */
  datatype Timers = Timers(approving: set<NodeID>, pausing: set<NodeID>)

  /** A running stage completes, or a waiting approval is decided that has not been decided. */
  predicate About(rows: Rows, known: Decisions, t: Trigger) {
    t.id in rows && if t.Completion? then rows[t.id] == RunningRow else rows[t.id] == ApprovalRow && t.id !in known
  }

  /** Votes approve while the run asks for them, timers at any time. (A rejection, which ends the run, is always let
      happen.) */
  ghost predicate CanTrigger(d: Dag, tm: Timers, ts: seq<Trigger>, t: Trigger)
    requires WellFormed(d)
  {
    && !Over(ts) && About(RowsNow(d, ts), Known(ts), t)
    && (t.Approval? ==> Asking(d, ts) || t.id in tm.approving)
    && (t.Pause? ==> t.id in tm.pausing)
  }

  /** Every event could happen after what was before it. */
  ghost predicate Driven(d: Dag, tm: Timers, ts: seq<Trigger>)
    requires WellFormed(d)
  {
    ts == [] || (Driven(d, tm, ts[..|ts| - 1]) && CanTrigger(d, tm, ts[..|ts| - 1], ts[|ts| - 1]))
  }

  /** Nothing more can happen but a rejection. */
  ghost predicate Stuck(d: Dag, tm: Timers, ts: seq<Trigger>)
    requires WellFormed(d)
  {
    forall t: Trigger :: !t.Rejection? ==> !CanTrigger(d, tm, ts, t)
  }

  predicate TriggerFollows(t: Trigger, o: Statuses) {
    match t
    case Completion(id, success) => id in o && o[id] == DoneStatus(success)
    case Approval(id) => id in o && o[id] == Success
    case Pause(id) => id in o && o[id] == Failed
    case Rejection(_) => true
  }

  predicate TriggersFollow(ts: seq<Trigger>, o: Statuses) {
    forall i :: 0 <= i < |ts| ==> TriggerFollows(ts[i], o)
  }

  /** Rows before the tick that `t` causes. */
  function Led(rows: Rows, t: Trigger): Rows {
    if t.Completion? then rows[t.id := Row(DoneStatus(t.success))] else rows
  }

  lemma RowsAppend(d: Dag, rows: Rows, events: seq<Event>, e: Event)
    requires WellFormed(d)
    ensures RowsAfter(d, rows, events + [e]) == RowsStep(d, RowsAfter(d, rows, events), e)
    ensures Possible(d, rows, events + [e]) <==>
              Possible(d, rows, events) && Happens(RowsAfter(d, rows, events), e)
  {
    hide WellFormed, Happens, RowsStep;
    assert (events + [e])[..|events|] == events;
  }

  /** What an event does to the rows, and whether it was possible. */
  lemma LedRows(d: Dag, tm: Timers, ts: seq<Trigger>)
    requires WellFormed(d) && ts != []
    ensures var n := |ts| - 1;
            if CausesTick(ts[n])
            then RowsBefore(d, ts) == Led(RowsNow(d, ts[..n]), ts[n])
            else RowsNow(d, ts) == RowsNow(d, ts[..n]) && LastState(d, ts) == LastState(d, ts[..n])
    ensures var n := |ts| - 1;
            Possible(d, InitialRows(d), BeforeTick(ts[..n])) && CanTrigger(d, tm, ts[..n], ts[n]) ==>
              Possible(d, InitialRows(d), BeforeTick(ts))
  {
    hide WellFormed;
    var n := |ts| - 1;
    if CausesTick(ts[n]) {
      var before, tick := BeforeTick(ts[..n]), Tick(News(ts[..n]));
      RowsAppend(d, InitialRows(d), before, tick);
      if ts[n].Completion? {
        RowsAppend(d, InitialRows(d), before + [tick], StageDone(ts[n].id, ts[n].success));
      } else {
        assert before + [tick] + [] == before + [tick];
      }
    }
  }

  lemma {:induction false} DrivenPossible(d: Dag, tm: Timers, ts: seq<Trigger>)
    requires WellFormed(d) && Driven(d, tm, ts)
    ensures Possible(d, InitialRows(d), BeforeTick(ts))
  {
    hide WellFormed, CanTrigger, Possible;
    if ts == [] {
      NothingPossible(d);
    } else {
      DrivenPossible(d, tm, ts[..|ts| - 1]);
      LedRows(d, tm, ts);
    }
  }

  lemma NothingPossible(d: Dag)
    requires WellFormed(d)
    ensures Possible(d, InitialRows(d), [])
  {
  }

  ghost predicate DecisionsFollow(decided: Decisions, o: Statuses) {
    forall id :: id in decided && id in o && decided[id] != Rejected ==> VerdictStatus(decided[id]) == o[id]
  }

  lemma {:induction false} KnownFollows(ts: seq<Trigger>, o: Statuses)
    requires TriggersFollow(ts, o)
    ensures DecisionsFollow(Known(ts), o)
  {
    if ts != [] {
      var n := |ts| - 1;
      KnownFollows(ts[..n], o);
      assert TriggerFollows(ts[n], o);
    }
  }

  /** Nothing happens after a rejection, so no tick finds one. */
  lemma {:induction false} NoRejections(d: Dag, tm: Timers, ts: seq<Trigger>)
    requires WellFormed(d) && Driven(d, tm, ts)
    ensures !Over(ts) ==> forall id :: id in Known(ts) ==> Known(ts)[id] != Rejected
    ensures forall id :: id in News(ts) ==> News(ts)[id] != Rejected
  {
    hide WellFormed, About, RowsNow;
    if ts != [] {
      NoRejections(d, tm, ts[..|ts| - 1]);
    }
  }

  lemma {:induction false} DrivenFollows(d: Dag, tm: Timers, ts: seq<Trigger>, o: Statuses)
    requires WellFormed(d) && Driven(d, tm, ts) && TriggersFollow(ts, o)
    ensures EventsFollow(BeforeTick(ts), o) && EventFollows(Tick(News(ts)), o)
  {
    hide WellFormed, CanTrigger;
    NoRejections(d, tm, ts);
    if ts == [] {
    } else {
      var n := |ts| - 1;
      DrivenFollows(d, tm, ts[..n], o);
      assert TriggerFollows(ts[n], o);
      if CausesTick(ts[n]) {
        KnownFollows(ts, o);
      }
    }
  }

  // ---- Every history ends ----

  function FinalRows(rows: Rows): set<NodeID> {
    set id | id in rows && FromRow(rows[id]).IsTerminal()
  }

  /** What a tick does to the kind of each row: it keeps the final ones and those that decisions make final, it leaves
      alone what runs, and it hands out approvals as waiting and the others as running. */
  lemma TickKeeps(d: Dag, rows: Rows, decided: Decisions)
    requires WellFormed(d) && RowsFor(d, rows)
    ensures RowsFor(d, TickRows(d, rows, decided))
    ensures FinalRows(Synced(rows, decided)) <= FinalRows(TickRows(d, rows, decided))
    ensures KindsKept(d, Synced(rows, decided), TickRows(d, rows, decided))
  {
    var rows' := Synced(rows, decided);
    var st := Rebuilt(d, rows');
    RebuiltEffect(d, rows');
    SweepSwept(d, st, |d.order|);
    hide WellFormed, Synced, Rebuilt, FromRow;
    KeptFinal(d, rows', st, Next(d, st), ReadyList(d, st));
  }

  ghost predicate KindsKept(d: Dag, rows: Rows, rows': Rows) {
    forall id :: id in d.nodes && id in rows && id in rows' ==>
      rows'[id] == rows[id] || rows'[id] == DispatchRow(d.nodes[id])
  }

  lemma KeptFinal(d: Dag, rows: Rows, before: State, after: State, ready: seq<NodeID>)
    requires RowsFor(d, rows) && Covers(d, before) && Covers(d, after) && Swept(d, before, after, ready)
    requires forall id :: id in d.nodes ==> before.status[id] == FromRow(rows[id])
    ensures FinalRows(rows) <= FinalRows(Marked(d, rows, ready)) && KindsKept(d, rows, Marked(d, rows, ready))
  {
    forall id | id in FinalRows(rows) ensures id in FinalRows(Marked(d, rows, ready)) {
      assert id !in ready;
    }
  }

  function IDs(ts: seq<Trigger>): set<NodeID> {
    set i | 0 <= i < |ts| :: ts[i].id
  }

  /** Every stage of `ids` is decided or final. */
  ghost predicate Spent(ids: set<NodeID>, known: Decisions, rows: Rows) {
    forall id :: id in ids ==> id in known || id in FinalRows(rows)
  }

  /** What is decided waits or is final. */
  ghost predicate DecidedRows(known: Decisions, rows: Rows) {
    forall id :: id in known ==> id in rows && (rows[id] == ApprovalRow || id in FinalRows(rows))
  }

  /** Approvals wait and other stages run. */
  ghost predicate Kinds(d: Dag, rows: Rows) {
    forall id :: id in d.nodes && id in rows && rows[id] in {RunningRow, ApprovalRow} ==>
      rows[id] == DispatchRow(d.nodes[id])
  }

  /** Each event of the history was about another stage. */
  ghost predicate Counted(d: Dag, ids: set<NodeID>, n: nat) {
    ids <= d.nodes.Keys && |ids| == n
  }

  /** What the rows after a history say about it. */
  ghost predicate Accounted(d: Dag, ts: seq<Trigger>, rows: Rows) {
    && RowsFor(d, rows) && Counted(d, IDs(ts), |ts|) && Kinds(d, rows)
    && Spent(IDs(ts), Known(ts), rows) && DecidedRows(Known(ts), rows)
  }

  lemma {:induction false} DrivenAccounted(d: Dag, tm: Timers, ts: seq<Trigger>)
    requires WellFormed(d) && Driven(d, tm, ts)
    ensures Accounted(d, ts, RowsNow(d, ts))
  {
    hide WellFormed, Accounted, About, TickRows, RowsNow, LastState, RowsBefore;
    if ts == [] {
      StartAccounted(d);
    } else {
      var n := |ts| - 1;
      DrivenAccounted(d, tm, ts[..n]);
      LedRows(d, tm, ts);
      if CausesTick(ts[n]) {
        RowsNowAre(d, ts);
        TickAccounted(d, ts, RowsNow(d, ts[..n]));
      } else {
        DecisionAccounted(d, ts, RowsNow(d, ts[..n]));
      }
    }
  }

  lemma StartAccounted(d: Dag)
    requires WellFormed(d)
    ensures Accounted(d, [], RowsNow(d, []))
  {
    hide WellFormed, TickRows, TickState;
    BeforeAnything(d);
    TickKeeps(d, InitialRows(d), map[]);
    assert Synced(InitialRows(d), map[]) == InitialRows(d);
    KindsAfter(d, InitialRows(d), TickRows(d, InitialRows(d), map[]));
    assert IDs([]) == {} && Known([]) == map[];
  }

  lemma KindsAfter(d: Dag, rows: Rows, rows': Rows)
    requires Kinds(d, rows) && KindsKept(d, rows, rows') && RowsFor(d, rows) && RowsFor(d, rows')
    ensures Kinds(d, rows')
  {
  }

  lemma BeforeAnything(d: Dag)
    requires WellFormed(d)
    ensures RowsNow(d, []) == TickRows(d, InitialRows(d), map[])
    ensures LastState(d, []) == TickState(d, InitialRows(d), map[])
  {
  }

  lemma RowsNowAre(d: Dag, ts: seq<Trigger>)
    requires WellFormed(d)
    ensures RowsNow(d, ts) == TickRows(d, RowsBefore(d, ts), News(ts))
    ensures LastState(d, ts) == TickState(d, RowsBefore(d, ts), News(ts))
  {
  }

  lemma IDsSnoc(ts: seq<Trigger>)
    requires ts != []
    ensures IDs(ts) == IDs(ts[..|ts| - 1]) + {ts[|ts| - 1].id}
  {
    var n := |ts| - 1;
    forall id | id in IDs(ts) ensures id in IDs(ts[..n]) + {ts[n].id} {
      var i :| 0 <= i < |ts| && ts[i].id == id;
      assert i < n ==> ts[..n][i].id == id;
    }
    forall id | id in IDs(ts[..n]) ensures id in IDs(ts) {
      var i :| 0 <= i < n && ts[..n][i].id == id;
      assert ts[i].id == id;
    }
  }

  /** An event is about a stage that no earlier one was about. */
  lemma NewID(d: Dag, ts: seq<Trigger>, rows: Rows)
    requires ts != [] && Accounted(d, ts[..|ts| - 1], rows) && About(rows, Known(ts[..|ts| - 1]), ts[|ts| - 1])
    ensures ts[|ts| - 1].id !in IDs(ts[..|ts| - 1]) && IDs(ts) == IDs(ts[..|ts| - 1]) + {ts[|ts| - 1].id}
    ensures Counted(d, IDs(ts), |ts|)
  {
    hide IDs, Known, Kinds;
    IDsSnoc(ts);
  }

  lemma DecisionAccounted(d: Dag, ts: seq<Trigger>, rows: Rows)
    requires ts != [] && Accounted(d, ts[..|ts| - 1], rows) && About(rows, Known(ts[..|ts| - 1]), ts[|ts| - 1])
    requires !CausesTick(ts[|ts| - 1])
    ensures Accounted(d, ts, rows)
  {
    hide IDs, FinalRows, Kinds, Counted;
    NewID(d, ts, rows);
  }

  /** The row of one stage before a tick, once the decisions are synchronised. */
  lemma SyncedRow(rows: Rows, t: Trigger, decided: Decisions, id: NodeID)
    requires id in rows && t.id in rows && (t.Completion? ==> rows[t.id] == RunningRow)
    ensures var synced := Synced(Led(rows, t), decided);
            && id in synced
            && (id in FinalRows(rows) ==> id in FinalRows(synced))
            && (rows[id] == ApprovalRow && id in decided ==> id in FinalRows(synced))
            && (t.Completion? && id == t.id ==> id in FinalRows(synced))
            && (synced[id] in {RunningRow, ApprovalRow} ==> synced[id] == rows[id])
  {
  }

  lemma KnownMore(ts: seq<Trigger>)
    requires ts != [] && CausesTick(ts[|ts| - 1])
    ensures News(ts) == Known(ts)
    ensures Known(ts).Keys == Known(ts[..|ts| - 1]).Keys + if ts[|ts| - 1].Approval? then {ts[|ts| - 1].id} else {}
  {
  }

  /** After the synchronisation the stage of every event is final. */
  lemma SyncedAccounted(d: Dag, ts: seq<Trigger>, rows: Rows)
    requires ts != [] && Accounted(d, ts[..|ts| - 1], rows) && About(rows, Known(ts[..|ts| - 1]), ts[|ts| - 1])
    requires CausesTick(ts[|ts| - 1])
    ensures var synced := Synced(Led(rows, ts[|ts| - 1]), News(ts));
            && RowsFor(d, Led(rows, ts[|ts| - 1])) && RowsFor(d, synced) && Kinds(d, synced)
            && Known(ts).Keys + IDs(ts) <= FinalRows(synced)
  {
    hide IDs, Known, News, FinalRows, FromRow, Row, Counted, Spent, DecidedRows, Kinds;
    IDsSnoc(ts);
    KnownMore(ts);
    var t, before := ts[|ts| - 1], ts[..|ts| - 1];
    LedFor(d, rows, t, News(ts));
    var synced := Synced(Led(rows, t), News(ts));
    hide Synced, Led;
    forall id | id in Known(ts) || id in IDs(ts) ensures id in FinalRows(synced) {
      KnownInRows(d, before, rows, id);
      SyncedRow(rows, t, News(ts), id);
    }
    forall id | id in rows
      ensures id in synced && (synced[id] in {RunningRow, ApprovalRow} ==> synced[id] == rows[id])
    {
      SyncedRow(rows, t, News(ts), id);
    }
    KindsBefore(d, rows, synced);
  }

  lemma KindsBefore(d: Dag, rows: Rows, synced: Rows)
    requires Kinds(d, rows) && RowsFor(d, rows)
    requires forall id :: id in rows ==>
               id in synced && (synced[id] in {RunningRow, ApprovalRow} ==> synced[id] == rows[id])
    ensures Kinds(d, synced)
  {
  }

  lemma KnownInRows(d: Dag, ts: seq<Trigger>, rows: Rows, id: NodeID)
    requires Accounted(d, ts, rows)
    ensures id in Known(ts) || id in IDs(ts) ==> id in rows
    ensures id in Known(ts) ==> rows[id] == ApprovalRow || id in FinalRows(rows)
    ensures id in IDs(ts) ==> id in Known(ts) || id in FinalRows(rows)
  {
    hide IDs, Known, FinalRows, Kinds;
  }

  lemma LedFor(d: Dag, rows: Rows, t: Trigger, decided: Decisions)
    requires RowsFor(d, rows) && t.id in rows
    ensures RowsFor(d, Led(rows, t)) && RowsFor(d, Synced(Led(rows, t), decided))
  {
  }

  lemma TickAccounted(d: Dag, ts: seq<Trigger>, rows: Rows)
    requires WellFormed(d)
    requires ts != [] && Accounted(d, ts[..|ts| - 1], rows) && About(rows, Known(ts[..|ts| - 1]), ts[|ts| - 1])
    requires CausesTick(ts[|ts| - 1])
    ensures Accounted(d, ts, TickRows(d, Led(rows, ts[|ts| - 1]), News(ts)))
    ensures Known(ts).Keys <= FinalRows(TickRows(d, Led(rows, ts[|ts| - 1]), News(ts)))
  {
    hide WellFormed, TickRows, IDs, Synced, Led, News, Known, About, FinalRows, CausesTick, FromRow, Counted;
    hide Kinds, KindsKept;
    NewID(d, ts, rows);
    SyncedAccounted(d, ts, rows);
    TickKeeps(d, Led(rows, ts[|ts| - 1]), News(ts));
    KindsAfter(d, Synced(Led(rows, ts[|ts| - 1]), News(ts)), TickRows(d, Led(rows, ts[|ts| - 1]), News(ts)));
    FinalInRows(TickRows(d, Led(rows, ts[|ts| - 1]), News(ts)));
  }

  lemma FinalInRows(rows: Rows)
    ensures FinalRows(rows) <= rows.Keys
  {
  }

  /** No history is longer than the list of stages: no two events are about the same one. */
  lemma HistoriesEnd(d: Dag, tm: Timers, ts: seq<Trigger>)
    requires WellFormed(d) && Driven(d, tm, ts)
    ensures |ts| <= |d.nodes|
  {
    hide WellFormed, RowsNow, Driven;
    DrivenAccounted(d, tm, ts);
    SubsetSize(IDs(ts), d.nodes.Keys);
  }

  // ---- Where a history ends ----

  /** With outcomes that skip no need listed late, and in particular after every history of a pipeline that is
      LiveOrdered: the last tick has left nothing that runs or waits exactly when it found the run done, and then
      the run has the statuses that every scheduler run with these outcomes ends in. */
  lemma HistoryOutcome(d: Dag, tm: Timers, o: Statuses, ts: seq<Trigger>)
    requires WellFormed(d) && Acyclic(d.Needs()) && TwoOutcomes(d, o) && LateNeedsRun(d, o)
    requires Driven(d, tm, ts) && TriggersFollow(ts, o)
    ensures Idle(RowsNow(d, ts)) <==> AllDone(LastState(d, ts).status)
    ensures AllDone(LastState(d, ts).status) ==> LastState(d, ts).status == FinalStatuses(d, o)
  {
    hide WellFormed, Acyclic, LateNeedsRun, Idle, TickState, TickRows, Possible, EventsFollow, EventFollows;
    hide Final, FinalStatuses, Driven, AllDone, RowsAfter, TriggersFollow, Coherent, Faithful, NoLateSkip, LongStep;
    hide Happens;
    DrivenPossible(d, tm, ts);
    DrivenFollows(d, tm, ts, o);
    var st := FollowAfter(d, o, BeforeTick(ts));
    AnyTickHappens(Stored(st), News(ts));
    FollowStep(d, o, st, Tick(News(ts)));
    TickSettles(d, st, News(ts));
    if AllDone(LastState(d, ts).status) {
      FinishedIsFinal(d, o, BeforeTick(ts), News(ts));
    }
  }

  function Paused(ts: seq<Trigger>): set<NodeID> {
    set i | 0 <= i < |ts| && ts[i].Pause? :: ts[i].id
  }

  /** Every history is one of outcomes with which the run goes on. */
  lemma {:induction false} OutcomesOf(d: Dag, tm: Timers, ts: seq<Trigger>) returns (o: Statuses)
    requires WellFormed(d) && Driven(d, tm, ts)
    ensures Live(d, Paused(ts), o) && TriggersFollow(ts, o)
  {
    hide WellFormed, Live, Accounted, RowsNow, IsApproval;
    if ts == [] {
      o := AllSucceed(d);
      AllLive(d, Paused(ts));
    } else {
      var n := |ts| - 1;
      var before := OutcomesOf(d, tm, ts[..n]);
      DrivenAccounted(d, tm, ts[..n]);
      o := MoreOutcomes(d, ts, RowsNow(d, ts[..n]), before);
    }
  }

  /** The outcome that an event gives its stage. */
  function OutcomeBy(t: Trigger): NodeStatus {
    match t
    case Completion(_, success) => DoneStatus(success)
    case Pause(_) => Failed
    case _ => Success
  }

  lemma MoreOutcomes(d: Dag, ts: seq<Trigger>, rows: Rows, before: Statuses) returns (o: Statuses)
    requires ts != [] && Accounted(d, ts[..|ts| - 1], rows) && About(rows, Known(ts[..|ts| - 1]), ts[|ts| - 1])
    requires Live(d, Paused(ts[..|ts| - 1]), before) && TriggersFollow(ts[..|ts| - 1], before)
    ensures Live(d, Paused(ts), o) && TriggersFollow(ts, o)
  {
    hide IDs, Known, Paused, Accounted, Live, About, TriggerFollows;
    var n := |ts| - 1;
    var t := ts[n];
    o := before[t.id := OutcomeBy(t)];
    NewID(d, ts, rows);
    forall i | 0 <= i < |ts| ensures TriggerFollows(ts[i], o) {
      if i < n {
        assert ts[..n][i] == ts[i] && TriggerFollows(ts[..n][i], before);
        InIDs(ts[..n], i);
        FollowsStill(ts[i], before, o);
      } else {
        LastFollows(t, o);
      }
    }
    AboutRow(rows, Known(ts[..n]), t);
    PausedMore(ts);
    MoreLive(d, ts, rows, before, o);
  }

  lemma InIDs(ts: seq<Trigger>, i: nat)
    requires i < |ts|
    ensures ts[i].id in IDs(ts)
  {
  }

  lemma FollowsStill(t: Trigger, o: Statuses, o': Statuses)
    requires TriggerFollows(t, o) && (t.id in o ==> t.id in o' && o'[t.id] == o[t.id])
    ensures TriggerFollows(t, o')
  {
  }

  lemma LastFollows(t: Trigger, o: Statuses)
    requires t.id in o && o[t.id] == OutcomeBy(t)
    ensures TriggerFollows(t, o)
  {
  }

  lemma AboutRow(rows: Rows, known: Decisions, t: Trigger)
    requires About(rows, known, t)
    ensures t.id in rows && (t.Completion? ==> rows[t.id] == RunningRow)
  {
  }

  lemma PausedMore(ts: seq<Trigger>)
    requires ts != []
    ensures Paused(ts[..|ts| - 1]) <= Paused(ts)
    ensures ts[|ts| - 1].Pause? ==> ts[|ts| - 1].id in Paused(ts)
  {
    var n := |ts| - 1;
    forall id | id in Paused(ts[..n]) ensures id in Paused(ts) {
      var i :| 0 <= i < n && ts[..n][i].Pause? && ts[..n][i].id == id;
      assert ts[i].Pause? && ts[i].id == id;
    }
  }

  lemma MoreLive(d: Dag, ts: seq<Trigger>, rows: Rows, before: Statuses, o: Statuses)
    requires ts != [] && Accounted(d, ts[..|ts| - 1], rows) && Live(d, Paused(ts[..|ts| - 1]), before)
    requires Paused(ts[..|ts| - 1]) <= Paused(ts)
    requires var t := ts[|ts| - 1];
             && t.id in rows && (t.Completion? ==> rows[t.id] == RunningRow) && (t.Pause? ==> t.id in Paused(ts))
             && o == before[t.id := OutcomeBy(t)]
    ensures Live(d, Paused(ts), o)
  {
    hide Paused, IDs, Known, FinalRows;
  }

  lemma {:induction false} PausedPausing(d: Dag, tm: Timers, ts: seq<Trigger>)
    requires WellFormed(d) && Driven(d, tm, ts)
    ensures Paused(ts) <= tm.pausing
  {
    hide WellFormed, RowsNow, Known;
    if ts != [] {
      var n := |ts| - 1;
      PausedPausing(d, tm, ts[..n]);
      forall id | id in Paused(ts) ensures id in tm.pausing {
        var i :| 0 <= i < |ts| && ts[i].Pause? && ts[i].id == id;
        assert i < n ==> ts[..n][i] == ts[i] && id in Paused(ts[..n]);
      }
    }
  }

  lemma LiveMore(d: Dag, some: set<NodeID>, more: set<NodeID>, o: Statuses)
    requires Live(d, some, o) && some <= more
    ensures Live(d, more, o)
  {
  }

  /** The approval can be decided no more: it has been, or votes are refused and no timer approves it. */
  ghost predicate Stranded(d: Dag, tm: Timers, ts: seq<Trigger>, id: NodeID)
    requires WellFormed(d)
  {
    id in Known(ts) || (!Asking(d, ts) && id !in tm.approving)
  }

  /** When nothing more can happen, no stage runs, and whatever waits is stranded. */
  lemma StuckRows(d: Dag, tm: Timers, ts: seq<Trigger>)
    requires WellFormed(d) && !Over(ts) && Stuck(d, tm, ts)
    ensures forall id :: id in RowsNow(d, ts) ==> RowsNow(d, ts)[id] != RunningRow
    ensures forall id :: id in RowsNow(d, ts) && RowsNow(d, ts)[id] == ApprovalRow ==> Stranded(d, tm, ts, id)
  {
    hide WellFormed, RowsNow, Known, Asking;
    forall id | id in RowsNow(d, ts)
      ensures RowsNow(d, ts)[id] != RunningRow
      ensures RowsNow(d, ts)[id] == ApprovalRow ==> Stranded(d, tm, ts, id)
    {
      assert !CanTrigger(d, tm, ts, Completion(id, true));
      assert !CanTrigger(d, tm, ts, Approval(id));
    }
  }

  lemma IdleIsStuck(d: Dag, tm: Timers, ts: seq<Trigger>)
    requires WellFormed(d) && Idle(RowsNow(d, ts))
    ensures Stuck(d, tm, ts)
  {
    hide WellFormed, RowsNow;
  }

  /** If needs that can be skipped while the run goes on are listed first, every history that cannot go on has ended
      the run, unless a stranded approval is still waiting. */
  lemma HistoryStops(d: Dag, tm: Timers, ts: seq<Trigger>)
    requires WellFormed(d) && Acyclic(d.Needs()) && LiveOrdered(d, tm.pausing)
    requires Driven(d, tm, ts) && !Over(ts) && Stuck(d, tm, ts)
    ensures AllDone(LastState(d, ts).status) ||
            exists id :: id in RowsNow(d, ts) && RowsNow(d, ts)[id] == ApprovalRow && Stranded(d, tm, ts, id)
  {
    hide WellFormed, Acyclic, LiveOrdered, Driven, Stuck, AllDone, RowsNow, LastState, Live;
    var o := OutcomesOf(d, tm, ts);
    PausedPausing(d, tm, ts);
    LiveMore(d, Paused(ts), tm.pausing, o);
    LiveTwo(d, tm.pausing, o);
    LiveOrderedRuns(d, tm.pausing, o);
    HistoryOutcome(d, tm, o, ts);
    StuckRows(d, tm, ts);
  }
}
