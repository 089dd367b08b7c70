/** What holds of an approval in every interleaving of votes, the timeout, cancellations and delayed
    pushes, each transaction being one step. */
module ApprovalRuns {
  import opened Approvals
  import opened Pipelines
  import opened RunStates
  import opened Sequences

  datatype Step =
    | VoteStep(user: string, decision: Decision)
    | TimeoutStep(now: nat)
    | DeliverStep(i: nat, now: nat)
    | CancelStep(now: nat)

  function Next(s: State, step: Step): State {
    match step
    case VoteStep(user, d) => Voted(s, user, d)
    case TimeoutStep(now) => Late(s, now)
    case DeliverStep(i, now) => Delivered(s, i, now)
    case CancelStep(now) => Cancelled(s, now)
  }

  function Exec(s: State, steps: seq<Step>): State {
    if steps == [] then s else Next(Exec(s, steps[..|steps| - 1]), steps[|steps| - 1])
  }

  /** The state that CreateApproval leaves: the run waits, nobody has voted. */
  predicate Initial(s: State) {
    && s.run.status == Approval && s.inFlight == []
    && s.req.status == Waiting && s.req.votes == map[] && s.req.log == []
  }

  // ---- Agreement of the request and the run ----

  /** The run status that the request's status calls for. */
  function Expected(req: Request): RunStatus {
    match req.status
    case Waiting => Approval
    case Approved => Running
    case Rejected => Failed
    case TimedOut => if req.policy == Pause then Approval else Timeout
  }

  /** With nothing in flight the run is as the request says, unless it was canceled. Otherwise
      exactly the status that the request calls for is in flight, and the run still waits. */
  predicate Agreed(s: State) {
    && (s.req.status == TimedOut ==> s.req.policy != ApproveLate)
    && if s.inFlight == [] then s.run.status == Expected(s.req) || s.run.status == Canceled
       else s.inFlight == [Expected(s.req)] && Expected(s.req) != Approval && s.run.status in {Approval, Canceled}
  }

  lemma NextAgreed(s: State, step: Step)
    requires Agreed(s)
    ensures Agreed(Next(s, step))
    ensures Next(s, step).run.status == Canceled ==> s.run.status == Canceled || step.CancelStep?
  {
    if step.DeliverStep? && step.i < |s.inFlight| {
      assert s.inFlight[..0] + s.inFlight[1..] == [];
    }
  }

  lemma {:induction false} Agreement(s: State, steps: seq<Step>)
    requires Initial(s)
    ensures Agreed(Exec(s, steps))
    ensures Exec(s, steps).run.status == Canceled ==> exists k :: 0 <= k < |steps| && steps[k].CancelStep?
  {
    if steps != [] {
      var n := |steps| - 1;
      Agreement(s, steps[..n]);
      NextAgreed(Exec(s, steps[..n]), steps[n]);
      if k :| 0 <= k < n && steps[..n][k].CancelStep? {
        assert steps[k].CancelStep?;
      }
    }
  }

  /** Delivering what is in flight settles the run. */
  lemma Settles(s: State, now: nat)
    requires Agreed(s) && s.inFlight != []
    ensures var t := Delivered(s, 0, now);
            t.inFlight == [] && t.run.status == if s.run.status == Canceled then Canceled else Expected(s.req)
  {
    assert s.inFlight[..0] + s.inFlight[1..] == [];
  }

  lemma {:induction false} ExecSplit(s: State, before: seq<Step>, after: seq<Step>)
    ensures Exec(s, before + after) == Exec(Exec(s, before), after)
  {
    if after == [] {
      assert before + after == before;
    } else {
      var n := |after| - 1;
      ExecSplit(s, before, after[..n]);
      assert (before + after)[..|before + after| - 1] == before + after[..n];
    }
  }

  /** Once the request has left pending its row, its votes and its log are final; so is a terminal run. */
  lemma {:induction false} DecidedOnce(s: State, before: seq<Step>, after: seq<Step>)
    ensures Exec(s, before).req.status != Waiting ==> Exec(s, before + after).req == Exec(s, before).req
    ensures IsTerminal(Exec(s, before).run.status) ==> Exec(s, before + after).run == Exec(s, before).run
  {
    if after == [] {
      assert before + after == before;
    } else {
      var n := |after| - 1;
      DecidedOnce(s, before, after[..n]);
      assert (before + after)[..|before + after| - 1] == before + after[..n];
    }
  }

  // ---- Votes ----

  predicate Untimed(req: Request) {
    forall e :: e in req.log ==> !e.TimeoutLogged?
  }

  /** Who can have voted, and what the votes say about the status, as long as no timeout was handled. */
  predicate Counted(req: Request) {
    && (forall u :: u in req.votes ==> u != "" && IsApprover(u, req.approvers))
    && (req.status == Waiting ==> forall u :: u in req.votes ==> req.votes[u] == Approve)
    && (req.status == Waiting && req.votes != map[] ==> req.mode == All && |Supporters(req.votes)| < |req.approvers|)
    && (req.status == Approved ==> forall u :: u in req.votes ==> req.votes[u] == Approve)
    && (req.status == Approved ==>
          req.votes != map[] && (req.mode == All ==> |Supporters(req.votes)| >= |req.approvers|))
    && (req.status == Rejected ==> exists u :: u in req.votes && req.votes[u] == Reject)
    && req.status != TimedOut
  }

  lemma NextCounted(s: State, step: Step)
    requires Untimed(s.req) ==> Counted(s.req)
    ensures Untimed(Next(s, step).req) ==> Counted(Next(s, step).req)
    ensures Next(s, step).req.approvers == s.req.approvers && Next(s, step).req.mode == s.req.mode
  {
    var t := Next(s, step);
    assert t.req.log != [] ==> t.req.log[|t.req.log| - 1] in t.req.log;
    if Untimed(t.req) {
      assert Untimed(s.req) by {
        forall e | e in s.req.log ensures !e.TimeoutLogged? {
          assert e in t.req.log;
        }
      }
      if step.VoteStep? && VoteVerdict(s, step.user, step.decision).Accepted? {
        assert step.user in t.req.votes;
      }
    }
  }

  lemma {:induction false} ExecCounted(s: State, steps: seq<Step>)
    requires Initial(s)
    ensures Untimed(Exec(s, steps).req) ==> Counted(Exec(s, steps).req)
    ensures Exec(s, steps).req.approvers == s.req.approvers && Exec(s, steps).req.mode == s.req.mode
  {
    if steps != [] {
      var n := |steps| - 1;
      ExecCounted(s, steps[..n]);
      NextCounted(Exec(s, steps[..n]), steps[n]);
    }
  }

  /** While the request waits nobody has rejected it, and in mode "any" nobody has voted. */
  lemma {:induction false} WaitingVotes(s: State, steps: seq<Step>)
    requires Initial(s)
    ensures var req := Exec(s, steps).req;
            req.status == Waiting ==>
              && Untimed(req) && (forall u :: u in req.votes ==> req.votes[u] == Approve)
              && (req.mode == Any ==> req.votes == map[])
  {
    ExecCounted(s, steps);
    if steps != [] {
      WaitingVotes(s, steps[..|steps| - 1]);
    }
  }

  predicate Unanimous(req: Request) {
    forall a :: a in req.approvers ==> a in req.votes && req.votes[a] == Approve
  }

  /** In mode "all" the votes approve exactly when every listed approver has approved, if the names are
      distinct and none is "*". */
  lemma Unanimity(s: State, steps: seq<Step>)
    requires Initial(s) && s.req.mode == All && s.req.approvers != []
    requires Distinct(s.req.approvers) && "*" !in s.req.approvers
    ensures var req := Exec(s, steps).req;
            Untimed(req) ==>
              && (req.status == Approved <==> Unanimous(req))
              && (req.status == Rejected <==> exists u :: u in req.votes && req.votes[u] == Reject)
  {
    ExecCounted(s, steps);
    var req := Exec(s, steps).req;
    if Untimed(req) {
      var names, yes := Elements(req.approvers), Supporters(req.votes);
      ElementsCount(req.approvers);
      assert req.votes.Keys <= names;
      if req.status == Approved {
        SubsetFull(yes, names);
        assert forall a :: a in req.approvers ==> a in names;
      }
      if Unanimous(req) {
        assert names <= yes;
        SubsetSize(names, yes);
        assert req.approvers[0] in req.votes;
        assert forall u :: u in req.votes ==> u in req.approvers;
      }
    }
  }

  // ---- When votes can approve at all ----

  predicate ApprovedByVotes(req: Request) {
    req.status == Approved && Untimed(req)
  }

  /** Enough different users may vote: in mode "all" this fails for a list that names somebody twice. */
  predicate Attainable(req: Request) {
    && req.approvers != []
    && if "*" in req.approvers then true
       else if req.mode == All then Distinct(req.approvers) && "" !in req.approvers
       else exists a :: a in req.approvers && a != ""
  }

  lemma ApprovalNeeds(s: State, steps: seq<Step>)
    requires Initial(s) && ApprovedByVotes(Exec(s, steps).req)
    ensures Attainable(s.req)
  {
    ExecCounted(s, steps);
    var req := Exec(s, steps).req;
    var u :| u in req.votes;
    if "*" !in req.approvers {
      assert u in req.approvers;
      if req.mode == All {
        var names := Elements(req.approvers) - {""};
        assert Supporters(req.votes) <= names <= Elements(req.approvers);
        SubsetSize(Supporters(req.votes), names);
        SubsetSize(names, Elements(req.approvers));
        ElementsCount(req.approvers);
        SubsetFull(names, Elements(req.approvers));
      }
    }
  }

  /** Different users who may vote, as many as the mode asks for. */
  predicate Quorum(req: Request, users: seq<string>) {
    && Distinct(users) && users != []
    && (forall u :: u in users ==> u != "" && IsApprover(u, req.approvers))
    && |users| == if req.mode == Any then 1 else |req.approvers|
  }

  function VotesOf(users: seq<string>): seq<Step> {
    seq(|users|, i requires 0 <= i < |users| => VoteStep(users[i], Approve))
  }

  lemma VoteCounts(s: State, u: string)
    requires s.run.status == Approval && s.req.status == Waiting && Untimed(s.req)
    requires u != "" && IsApprover(u, s.req.approvers) && u !in s.req.votes
    requires Supporters(s.req.votes) == s.req.votes.Keys
    ensures var t := Voted(s, u, Approve);
            && t.run == s.run && Untimed(t.req) && t.req.approvers == s.req.approvers && t.req.mode == s.req.mode
            && t.req.votes.Keys == s.req.votes.Keys + {u} && Supporters(t.req.votes) == t.req.votes.Keys
            && t.req.status == (if t.req.mode == Any || |t.req.votes.Keys| >= |t.req.approvers| then Approved
                                else Waiting)
  {
    var votes := s.req.votes[u := Approve];
    assert Supporters(votes) == Supporters(s.req.votes) + {u};
  }

  /** The first `k` of `users` have voted, and nobody else. */
  predicate VotedFirst(s: State, users: seq<string>, k: nat, t: State)
    requires k <= |users|
  {
    && t.run == s.run && Untimed(t.req) && t.req.approvers == s.req.approvers && t.req.mode == s.req.mode
    && t.req.votes.Keys == Elements(users[..k]) == Supporters(t.req.votes)
    && t.req.status == if k < |users| then Waiting else Approved
  }

  lemma QuorumStep(s: State, users: seq<string>, k: nat, t: State)
    requires Initial(s) && Quorum(s.req, users) && k < |users| && VotedFirst(s, users, k, t)
    ensures VotedFirst(s, users, k + 1, Voted(t, users[k], Approve))
  {
    var u := users[k];
    assert u in users && u !in users[..k];
    ElementsCount(users[..k + 1]);
    assert Distinct(users[..k + 1]);
    assert users[..k + 1] == users[..k] + [u];
    assert Elements(users[..k + 1]) == Elements(users[..k]) + {u};
    VoteCounts(t, u);
    hide Voted, Elements, Supporters, Distinct;
    assert |Voted(t, u, Approve).req.votes.Keys| == k + 1;
  }

  lemma {:induction false} QuorumApproves(s: State, users: seq<string>, k: nat)
    requires Initial(s) && Quorum(s.req, users) && k <= |users|
    ensures VotedFirst(s, users, k, Exec(s, VotesOf(users)[..k]))
  {
    if k == 0 {
      assert Supporters(map[]) == {};
    } else {
      QuorumApproves(s, users, k - 1);
      var steps := VotesOf(users);
      assert steps[..k][..k - 1] == steps[..k - 1] && steps[k - 1] == VoteStep(users[k - 1], Approve);
      hide VotedFirst, Voted, Quorum, Initial;
      QuorumStep(s, users, k - 1, Exec(s, steps[..k - 1]));
    }
  }

  /** The user name of `k + 1` letters a. */
  function Letters(k: nat): string {
    seq(k + 1, _ => 'a')
  }

  lemma QuorumExists(req: Request) returns (users: seq<string>)
    requires Attainable(req)
    ensures Quorum(req, users)
  {
    if "*" in req.approvers {
      var n := if req.mode == Any then 1 else |req.approvers|;
      users := seq(n, i requires 0 <= i < n => Letters(i));
      forall i, j | 0 <= i < j < n ensures users[i] != users[j] {
        assert |users[i]| == i + 1 && |users[j]| == j + 1;
      }
    } else if req.mode == All {
      users := req.approvers;
    } else {
      var a :| a in req.approvers && a != "";
      users := [a];
    }
  }

  /** Some votes approve the request exactly when its approver list allows it. */
  lemma AttainableExactly(s: State)
    requires Initial(s)
    ensures (exists steps :: ApprovedByVotes(Exec(s, steps).req)) <==> Attainable(s.req)
  {
    if steps :| ApprovedByVotes(Exec(s, steps).req) {
      ApprovalNeeds(s, steps);
    }
    if Attainable(s.req) {
      var users := QuorumExists(s.req);
      QuorumApproves(s, users, |users|);
      assert VotesOf(users)[..|users|] == VotesOf(users);
      assert ApprovedByVotes(Exec(s, VotesOf(users)).req);
    }
  }
}
