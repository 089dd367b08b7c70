/** The stage scheduler (api/pkg/engine/scheduler.go): a status for every node, and the calls that change it.

    The functions say what each call does to the pair of maps `status` and `dispatched`; the class has these
    maps as fields, and its methods, with the loops of the source, are proved against the functions. What
    holds over whole runs is proved about the functions elsewhere. The mutex of the source makes every call
    one step. */
module Schedulers {
  import opened Sequences
  import opened Strings
  import opened Digraphs
  import opened Pipelines
  import opened Dags

  datatype NodeStatus =
    | Pending | Ready | Running | WaitingApproval
    | Success | Failed | Skipped | Canceled
  {
    predicate IsTerminal() {
      this in {Success, Failed, Skipped, Canceled}
    }
  }

  type Statuses = map<NodeID, NodeStatus>

  /** `status` for every node; `dispatched` holds the nodes handed out and not completed yet. */
  datatype State = State(status: Statuses, dispatched: set<NodeID>)

  function Initial(d: Dag): State {
    State(map id | id in d.nodes :: Pending, {})
  }

  // ---- One node ----

  predicate Always(n: Node) {
    Contains(n.stage.cond, "always()")
  }

  predicate OnFailure(n: Node) {
    Contains(n.stage.cond, "failure()")
  }

  /** A needed node that has no status yet counts as unfinished. */
  predicate Finished(status: Statuses, u: NodeID) {
    u in status && status[u].IsTerminal()
  }

  predicate AllFinished(n: Node, status: Statuses) {
    forall u :: u in n.ins ==> Finished(status, u)
  }

  predicate SomeNeed(n: Node, status: Statuses, s: NodeStatus) {
    exists u :: u in n.ins && u in status && status[u] == s
  }

  /** What the statuses of its needs make of a pending node. */
  function Decide(n: Node, status: Statuses): NodeStatus {
    if n.ins == [] then
      if OnFailure(n) then Skipped else Ready
    else if !AllFinished(n, status) then Pending
    else if SomeNeed(n, status, Canceled) && !Always(n) then Skipped
    else if SomeNeed(n, status, Failed) then
      if Always(n) || OnFailure(n) then Ready else Skipped
    else if SomeNeed(n, status, Skipped) && !Always(n) then Skipped
    else if OnFailure(n) then Skipped
    else Ready
  }

  predicate IsApproval(n: Node) {
    n.stage.kind == "approval"
  }

  function Dispatched(n: Node): NodeStatus {
    if IsApproval(n) then WaitingApproval else Running
  }

  // ---- One call of NextReady ----

  /** The effect of NextReady on one node, and whether the node is handed out. */
  function Visit(d: Dag, st: State, id: NodeID): (State, seq<NodeID>)
    requires id in d.nodes && id in st.status
  {
    if st.status[id] != Pending || id in st.dispatched then (st, [])
    else
      match Decide(d.nodes[id], st.status)
      case Ready => (State(st.status[id := Dispatched(d.nodes[id])], st.dispatched + {id}), [id])
      case Skipped => (st.(status := st.status[id := Skipped]), [])
      case _ => (st, [])
  }

  ghost predicate Covers(d: Dag, st: State) {
    st.status.Keys == d.nodes.Keys
  }

  /** NextReady after the first `k` nodes of Order: skips and dispatches are visible to later nodes. */
  function Sweep(d: Dag, st: State, k: nat): (r: (State, seq<NodeID>))
    requires k <= |d.order| && Covers(d, st) && forall id :: id in d.order ==> id in d.nodes
    ensures Covers(d, r.0)
  {
    if k == 0 then (st, [])
    else
      var (s, ready) := Sweep(d, st, k - 1);
      var (s', more) := Visit(d, s, d.order[k - 1]);
      (s', ready + more)
  }

  function Next(d: Dag, st: State): State
    requires WellFormed(d) && Covers(d, st)
  {
    Sweep(d, st, |d.order|).0
  }

  function ReadyList(d: Dag, st: State): seq<NodeID>
    requires WellFormed(d) && Covers(d, st)
  {
    Sweep(d, st, |d.order|).1
  }

  lemma {:induction false} ReadyNodes(d: Dag, st: State, k: nat)
    requires WellFormed(d) && Covers(d, st) && k <= |d.order|
    ensures forall id :: id in Sweep(d, st, k).1 ==> id in d.nodes
  {
    hide WellFormed;
    OrderNodes(d);
    if k > 0 {
      ReadyNodes(d, st, k - 1);
    }
  }

  // ---- Completion, the summary, and restoring ----

  datatype CompleteError = UnknownNode | AlreadyTerminal | InvalidResult

  function CompleteVerdict(st: State, id: NodeID, result: NodeStatus): Option<CompleteError> {
    if id !in st.status then Some(UnknownNode)
    else if st.status[id].IsTerminal() then Some(AlreadyTerminal)
    else if result !in {Success, Failed, Canceled} then Some(InvalidResult)
    else None
  }

  function Completed(st: State, id: NodeID, result: NodeStatus): State {
    State(st.status[id := result], st.dispatched - {id})
  }

  function AllCanceled(st: State): State {
    State(
      map id | id in st.status :: if st.status[id].IsTerminal() then st.status[id] else Canceled,
      set id | id in st.dispatched && (id in st.status ==> st.status[id].IsTerminal()))
  }

  predicate AllDone(status: Statuses) {
    forall id :: id in status ==> status[id].IsTerminal()
  }

  function OutcomeOf(status: Statuses): NodeStatus {
    if exists id :: id in status && status[id] == Failed then Failed
    else if exists id :: id in status && status[id] == Canceled then Canceled
    else if |status| == 1 && exists id :: id in status && status[id] == Skipped then Skipped
    else Success
  }

  lemma OneEntry(status: Statuses, s: NodeStatus)
    ensures (|status| == 1 && exists id :: id in status && status[id] == s) <==> exists id :: status == map[id := s]
  {
    if |status| == 1 && exists id :: id in status && status[id] == s {
      var id :| id in status && status[id] == s;
      SubsetFull({id}, status.Keys);
      assert status == map[id := s];
    }
    if id :| status == map[id := s] {
      assert status.Keys == {id};
    }
  }

  /** The status column of a stage row. */
  datatype RowStatus =
    | PendingRow | RunningRow | ApprovalRow
    | SuccessRow | FailedRow | SkippedRow | CanceledRow
    | OtherRow(text: string)

  /** The scheduler status for a stored stage status; anything unknown is pending. */
  function FromRow(row: RowStatus): NodeStatus {
    match row
    case SuccessRow => Success
    case FailedRow => Failed
    case SkippedRow => Skipped
    case CanceledRow => Canceled
    case RunningRow => Running
    case ApprovalRow => WaitingApproval
    case PendingRow | OtherRow(_) => Pending
  }

  function Restored(st: State, rows: map<NodeID, RowStatus>): State {
    State(
      map id | id in st.status :: if id in rows then FromRow(rows[id]) else st.status[id],
      (set id | id in st.status && id in rows && FromRow(rows[id]) in {Running, WaitingApproval}) +
      (set id | id in st.dispatched && (id !in st.status || id !in rows)))
  }

  /** What restoring makes of one node. */
  lemma RestoredSays(st: State, rows: map<NodeID, RowStatus>, id: NodeID)
    ensures id in st.status && id in rows ==>
              Restored(st, rows).status[id] ==
              match rows[id]
              case SuccessRow => Success
              case FailedRow => Failed
              case SkippedRow => Skipped
              case CanceledRow => Canceled
              case RunningRow => Running
              case ApprovalRow => WaitingApproval
              case PendingRow | OtherRow(_) => Pending
    ensures id in st.status && id in rows ==>
              (id in Restored(st, rows).dispatched <==> rows[id] == RunningRow || rows[id] == ApprovalRow)
    ensures id !in st.status || id !in rows ==> (id in Restored(st, rows).dispatched <==> id in st.dispatched)
  {
  }

  class Scheduler {
    const dag: Dag
    var status: Statuses
    var dispatched: set<NodeID>

    ghost function Current(): State
      reads this
    {
      State(status, dispatched)
    }

    ghost predicate Valid()
      reads this
    {
      WellFormed(dag) && Covers(dag, Current())
    }

    constructor (d: Dag)
      requires WellFormed(d)
      ensures dag == d && Valid() && Current() == Initial(d)
      ensures dispatched == {} && status == map id | id in d.nodes :: Pending
    {
      dag := d;
      status := map id | id in d.nodes :: Pending;
      dispatched := {};
    }

    /** One pass over the needs of a pending node, collecting flags. A node waits for its needs; then the `if` text
        says which of their statuses let it run: "always()" any, "failure()" a failed one, "always()" being needed too
        if one was canceled, and without either text all have to be successful. */
    method ComputeReadyOrSkip(id: NodeID) returns (next: NodeStatus)
      ensures next == if id in dag.nodes then Decide(dag.nodes[id], status) else Pending
      ensures id in dag.nodes ==>
                (next == Pending <==> exists u :: u in dag.nodes[id].ins && !Finished(status, u))
      ensures id in dag.nodes && next != Pending ==>
                var n := dag.nodes[id];
                var always, failure := Contains(n.stage.cond, "always()"), Contains(n.stage.cond, "failure()");
                var failed := exists u :: u in n.ins && u in status && status[u] == Failed;
                var canceled := exists u :: u in n.ins && u in status && status[u] == Canceled;
                next == if failure then (if failed && (always || !canceled) then Ready else Skipped)
                        else if always || forall u :: u in n.ins && u in status ==> status[u] == Success then Ready
                        else Skipped
    {
      if id !in dag.nodes {
        return Pending;
      }
      var n := dag.nodes[id];
      if |n.ins| == 0 {
        return if OnFailure(n) then Skipped else Ready;
      }
      var hasFailed, hasSkipped, hasCanceled, allDone := false, false, false, true;
      for i := 0 to |n.ins|
        invariant hasFailed <==> exists j :: 0 <= j < i && n.ins[j] in status && status[n.ins[j]] == Failed
        invariant hasSkipped <==> exists j :: 0 <= j < i && n.ins[j] in status && status[n.ins[j]] == Skipped
        invariant hasCanceled <==> exists j :: 0 <= j < i && n.ins[j] in status && status[n.ins[j]] == Canceled
        invariant allDone <==> forall j :: 0 <= j < i ==> Finished(status, n.ins[j])
      {
        var dep := n.ins[i];
        match if dep in status then status[dep] else Pending {
          case Success =>
          case Failed => hasFailed := true;
          case Skipped => hasSkipped := true;
          case Canceled => hasCanceled := true;
          case _ => allDone := false;
        }
      }
      assert hasFailed <==> SomeNeed(n, status, Failed);
      assert hasSkipped <==> SomeNeed(n, status, Skipped);
      assert hasCanceled <==> SomeNeed(n, status, Canceled);
      if !allDone {
        return Pending;
      }
      var hasIf := n.stage.cond != "";
      var always := hasIf && Contains(n.stage.cond, "always()");
      var failureOnly := hasIf && Contains(n.stage.cond, "failure()");
      if hasCanceled && !always {
        return Skipped;
      }
      if hasFailed {
        if always || failureOnly {
          return Ready;
        }
        return Skipped;
      }
      if hasSkipped && !always {
        return Skipped;
      }
      if failureOnly && !hasFailed {
        return Skipped;
      }
      return Ready;
    }

    /** Hand out every pending node whose needs allow it and skip those that can no longer run. */
    method NextReady() returns (ready: seq<NodeID>)
      requires Valid()
      modifies this
      ensures Valid()
      ensures Current() == Next(dag, old(Current())) && ready == ReadyList(dag, old(Current()))
    {
      hide WellFormed, Visit;
      OrderNodes(dag);
      ready := [];
      for k := 0 to |dag.order|
        invariant Valid()
        invariant (Current(), ready) == Sweep(dag, old(Current()), k)
      {
        var taken := Consider(dag.order[k]);
        ready := ready + taken;
      }
    }

    /** NextReady at one node of Order. */
    method Consider(id: NodeID) returns (taken: seq<NodeID>)
      requires id in dag.nodes && Covers(dag, Current())
      modifies this
      ensures Covers(dag, Current())
      ensures (Current(), taken) == Visit(dag, old(Current()), id)
    {
      taken := [];
      if status[id] != Pending {
        return;
      }
      if id in dispatched {
        return;
      }
      var next := ComputeReadyOrSkip(id);
      hide Decide;
      match next {
        case Ready =>
          if dag.nodes[id].stage.kind == "approval" {
            status := status[id := WaitingApproval];
          } else {
            status := status[id := Running];
          }
          dispatched := dispatched + {id};
          taken := [id];
        case Skipped =>
          status := status[id := Skipped];
        case _ =>
      }
    }

    method Complete(id: NodeID, result: NodeStatus) returns (err: Option<CompleteError>)
      requires Valid()
      modifies this
      ensures Valid()
      ensures err == CompleteVerdict(old(Current()), id, result)
      ensures Current() == if err == None then Completed(old(Current()), id, result) else old(Current())
      ensures err == Some(UnknownNode) <==> id !in old(status)
      ensures err == Some(AlreadyTerminal) <==>
                id in old(status) && old(status)[id] in {Success, Failed, Skipped, Canceled}
      ensures err == Some(InvalidResult) <==>
                && id in old(status) && old(status)[id] !in {Success, Failed, Skipped, Canceled}
                && result !in {Success, Failed, Canceled}
      ensures err == None ==> status == old(status)[id := result] && dispatched == old(dispatched) - {id}
      ensures err != None ==> status == old(status) && dispatched == old(dispatched)
    {
      if id !in status {
        return Some(UnknownNode);
      }
      if status[id].IsTerminal() {
        return Some(AlreadyTerminal);
      }
      match result {
        case Success | Failed | Canceled =>
          status := status[id := result];
          dispatched := dispatched - {id};
          return None;
        case _ =>
          return Some(InvalidResult);
      }
    }

    method CancelAll()
      requires Valid()
      modifies this
      ensures Valid() && Current() == AllCanceled(old(Current()))
      ensures AllDone(status)
      ensures forall id :: id in status ==>
                status[id] == if old(status)[id] in {Success, Failed, Skipped} then old(status)[id] else Canceled
      ensures forall id :: id in dispatched <==>
                id in old(dispatched) && (id in old(status) ==> old(status)[id] in {Success, Failed, Skipped, Canceled})
    {
      hide WellFormed;
      var todo := status.Keys;
      while todo != {}
        invariant todo <= status.Keys && status.Keys == old(status).Keys
        invariant forall id :: id in status ==>
                    status[id] == if id in todo || old(status)[id].IsTerminal() then old(status)[id] else Canceled
        invariant forall id :: id in dispatched <==>
                    (id in old(dispatched) && (id in old(status) && id !in todo ==> old(status)[id].IsTerminal()))
        decreases todo
      {
        var id :| id in todo;
        if !status[id].IsTerminal() {
          status := status[id := Canceled];
          dispatched := dispatched - {id};
        }
        todo := todo - {id};
      }
      assert status == AllCanceled(old(Current())).status;
    }

    method Done() returns (done: bool)
      ensures done <==> AllDone(status)
      ensures done <==> forall id :: id in status ==> status[id] in {Success, Failed, Skipped, Canceled}
    {
      var todo := status.Keys;
      while todo != {}
        invariant todo <= status.Keys
        invariant forall id :: id in status && id !in todo ==> status[id].IsTerminal()
        decreases todo
      {
        var id :| id in todo;
        if !status[id].IsTerminal() {
          return false;
        }
        todo := todo - {id};
      }
      return true;
    }

    method Outcome() returns (r: NodeStatus)
      ensures r == OutcomeOf(status)
      ensures r == Failed <==> exists id :: id in status && status[id] == Failed
      ensures r != Failed ==> (r == Canceled <==> exists id :: id in status && status[id] == Canceled)
      ensures r !in {Failed, Canceled} ==>
                r == if exists id :: status == map[id := Skipped] then Skipped else Success
    {
      var canceled, failed, skipped := false, false, false;
      var todo := status.Keys;
      while todo != {}
        invariant todo <= status.Keys
        invariant failed <==> exists id :: id in status && id !in todo && status[id] == Failed
        invariant canceled <==> exists id :: id in status && id !in todo && status[id] == Canceled
        invariant skipped <==> exists id :: id in status && id !in todo && status[id] == Skipped
        decreases todo
      {
        var id :| id in todo;
        match status[id] {
          case Failed => failed := true;
          case Canceled => canceled := true;
          case Skipped => skipped := true;
          case _ =>
        }
        todo := todo - {id};
      }
      OneEntry(status, Skipped);
      return if failed then Failed
        else if canceled then Canceled
        else if skipped && |status| == 1 then Skipped
        else Success;
    }

    method RestoreNode(id: NodeID, row: RowStatus)
      requires id in status
      modifies this
      ensures status == old(status)[id := FromRow(row)]
      ensures dispatched == if FromRow(row) in {Running, WaitingApproval} then old(dispatched) + {id}
                            else old(dispatched) - {id}
    {
      match row {
        case SuccessRow => status := status[id := Success]; dispatched := dispatched - {id};
        case FailedRow => status := status[id := Failed]; dispatched := dispatched - {id};
        case SkippedRow => status := status[id := Skipped]; dispatched := dispatched - {id};
        case CanceledRow => status := status[id := Canceled]; dispatched := dispatched - {id};
        case RunningRow => status := status[id := Running]; dispatched := dispatched + {id};
        case ApprovalRow => status := status[id := WaitingApproval]; dispatched := dispatched + {id};
        case _ => status := status[id := Pending]; dispatched := dispatched - {id};
      }
    }

    method RestoreFromDB(rows: map<NodeID, RowStatus>)
      requires Valid()
      modifies this
      ensures Valid() && Current() == Restored(old(Current()), rows)
    {
      hide WellFormed, FromRow;
      ghost var target := Restored(Current(), rows);
      var todo := status.Keys;
      while todo != {}
        invariant todo <= status.Keys && status.Keys == old(status).Keys
        invariant forall id :: id in status ==>
                    status[id] == if id in todo then old(status)[id] else target.status[id]
        invariant forall id :: id in dispatched <==> id in if id in todo then old(dispatched) else target.dispatched
        decreases todo
      {
        var id :| id in todo;
        if id in rows {
          RestoreNode(id, rows[id]);
        }
        todo := todo - {id};
      }
      assert status == target.status;
      assert dispatched == target.dispatched;
    }
  }
}
