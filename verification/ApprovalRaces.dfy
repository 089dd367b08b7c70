/** The vote transaction seen more closely: its read, its save, and a timeout that commits in between. */
module ApprovalRaces {
  import opened Approvals
  import opened ApprovalRuns
  import opened Pipelines
  import opened RunStates
  import opened Sequences

  /** A vote locks the run's row but not the request's, so the timeout can commit between the moment the vote
      reads the request and the moment it saves it. */
  datatype Ballot = Ballot(user: string, decision: Decision)

  /** A state with at most one open vote: further votes, pushes and cancellations wait for its lock. */
  datatype Race = Race(state: State, open: Option<Ballot>)

  datatype Move =
    | Begin(ballot: Ballot)
    | Commit
    | Timer(now: nat)
    | Locked(step: Step)

  /** A timer is set for a request with a deadline only. */
  function Moved(r: Race, m: Move): Race {
    match m
    case Begin(b) => if r.open == None && MayOpen(r.state, b) then r.(open := Some(b)) else r
    case Commit => if r.open.Some? then Race(Saved(r.state, r.open.value), None) else r
    case Timer(now) => if r.state.req.deadline.Some? then r.(state := Late(r.state, now)) else r
    case Locked(step) =>
      if r.open == None && (step.DeliverStep? || step.CancelStep?) then r.(state := Next(r.state, step)) else r
  }

  /** The checks made before the vote is inserted. */
  predicate MayOpen(s: State, b: Ballot) {
    b.user != "" && s.run.status == Approval && s.req.status == Waiting && IsApprover(b.user, s.req.approvers)
  }

  /** Insert, count and save: a verdict overwrites whatever status the request has by now. */
  function Saved(s: State, b: Ballot): State {
    if b.user in s.req.votes then s
    else
      var read := s.req.(status := Waiting);
      var decided := Decided(read, b.user, b.decision);
      var kept := if decided.status == Waiting then decided.(status := s.req.status) else decided;
      s.(req := kept, inFlight := Send(s.inFlight, Push(decided.status)))
  }

  function Play(r: Race, moves: seq<Move>): Race {
    if moves == [] then r else Moved(Play(r, moves[..|moves| - 1]), moves[|moves| - 1])
  }

  // ---- Without a timeout inside a vote, votes are atomic ----

  predicate Fires(r: Race, m: Move) {
    m.Timer? && r.state.req.deadline.Some?
  }

  /** No timeout is handled while a vote is open. */
  predicate Orderly(r: Race, moves: seq<Move>) {
    moves == [] ||
    var last := |moves| - 1;
    Orderly(r, moves[..last]) && (Fires(Play(r, moves[..last]), moves[last]) ==> Play(r, moves[..last]).open == None)
  }

  /** The atomic step a move amounts to, if any: a vote happens when it commits. */
  function StepOf(r: Race, m: Move): Option<Step> {
    match m
    case Begin(_) => None
    case Commit => if r.open.Some? then Some(VoteStep(r.open.value.user, r.open.value.decision)) else None
    case Timer(now) => if Fires(r, m) then Some(TimeoutStep(now)) else None
    case Locked(step) => if r.open == None && (step.DeliverStep? || step.CancelStep?) then Some(step) else None
  }

  function Atomic(r: Race, moves: seq<Move>): seq<Step> {
    if moves == [] then []
    else
      var n := |moves| - 1;
      var step := StepOf(Play(r, moves[..n]), moves[n]);
      Atomic(r, moves[..n]) + if step.Some? then [step.value] else []
  }

  predicate OpenedRightly(r: Race) {
    r.open.Some? ==> MayOpen(r.state, r.open.value)
  }

  lemma MoveIsAtomic(r: Race, m: Move)
    requires OpenedRightly(r) && (Fires(r, m) ==> r.open == None)
    ensures OpenedRightly(Moved(r, m))
    ensures var step := StepOf(r, m); Moved(r, m).state == if step.Some? then Next(r.state, step.value) else r.state
  {
    if m.Commit? && r.open.Some? {
      assert r.state.req.(status := Waiting) == r.state.req;
    }
  }

  lemma {:induction false} OrderlyIsAtomic(s: State, moves: seq<Move>)
    requires Orderly(Race(s, None), moves)
    ensures OpenedRightly(Play(Race(s, None), moves))
    ensures Play(Race(s, None), moves).state == Exec(s, Atomic(Race(s, None), moves))
  {
    if moves != [] {
      var n := |moves| - 1;
      OrderlyIsAtomic(s, moves[..n]);
      MoveIsAtomic(Play(Race(s, None), moves[..n]), moves[n]);
      var before, step := Atomic(Race(s, None), moves[..n]), StepOf(Play(Race(s, None), moves[..n]), moves[n]);
      hide Moved, StepOf, Next, OpenedRightly;
      if step.Some? {
        assert (before + [step.value])[..|before|] == before;
      } else {
        assert before + [] == before;
      }
    }
  }

  /** So the request and the run agree as long as no timeout lands inside a vote. */
  lemma OrderlyAgrees(s: State, moves: seq<Move>)
    requires Initial(s) && Orderly(Race(s, None), moves)
    ensures Agreed(Play(Race(s, None), moves).state)
  {
    OrderlyIsAtomic(s, moves);
    Agreement(s, Atomic(Race(s, None), moves));
  }

  // ---- When the request and the run can end up apart ----

  predicate Settled(r: Race) {
    r.open == None && r.state.inFlight == []
  }

  predicate Consistent(s: State) {
    s.run.status == Expected(s.req) || s.run.status == Canceled
  }

  predicate HasVoter(approvers: seq<string>) {
    "*" in approvers || exists a :: a in approvers && a != ""
  }

  /** What is kept when a late request does not push the run to timeout. */
  predicate Raced(r: Race) {
    var s := r.state;
    && (r.open.Some? ==> s.run.status == Approval && s.req.status != Rejected)
    && match s.req.status
       case Waiting => s.inFlight == [] && s.run.status in {Approval, Canceled}
       case TimedOut => s.req.policy == Pause && s.inFlight == [] && s.run.status in {Approval, Canceled}
       case Approved =>
         && (forall p :: p in s.inFlight ==> p == Running)
         && s.run.status in {Approval, Running, Canceled} && (s.run.status == Approval ==> s.inFlight != [])
       case Rejected =>
         && (forall p :: p in s.inFlight ==> p in {Running, Failed})
         && s.run.status in {Approval, Running, Failed, Canceled}
         && (s.run.status in {Approval, Running} ==> Failed in s.inFlight)
  }

  lemma MoveRaced(r: Race, m: Move)
    requires Raced(r) && r.state.req.policy != RejectLate
    ensures Raced(Moved(r, m)) && Moved(r, m).state.req.policy == r.state.req.policy
  {
    match m
    case Begin(_) =>
    case Commit =>
      if r.open.Some? {
        CommitRaced(r);
      }
    case Timer(now) => TimerRaced(r, now);
    case Locked(step) =>
      if r.open == None && step.DeliverStep? && step.i < |r.state.inFlight| {
        DeliverRaced(r, step.i, step.now);
      }
  }

  lemma CommitRaced(r: Race)
    requires Raced(r) && r.open.Some?
    ensures Raced(Moved(r, Commit)) && Moved(r, Commit).state.req.policy == r.state.req.policy
  {
    var s, t := r.state, Moved(r, Commit).state;
    assert t.inFlight != s.inFlight ==>
             t.inFlight[|s.inFlight|] == if t.req.status == Rejected then Failed else Running;
    assert forall p :: p in t.inFlight && p !in s.inFlight ==> p == t.inFlight[|s.inFlight|];
  }

  lemma TimerRaced(r: Race, now: nat)
    requires Raced(r) && r.state.req.policy != RejectLate
    ensures Raced(Moved(r, Timer(now))) && Moved(r, Timer(now)).state.req.policy == r.state.req.policy
  {
  }

  lemma DeliverRaced(r: Race, i: nat, now: nat)
    requires Raced(r) && r.open == None && i < |r.state.inFlight|
    ensures Raced(Race(Delivered(r.state, i, now), None)) && Delivered(r.state, i, now).req == r.state.req
  {
    var before, after := r.state.inFlight, Delivered(r.state, i, now).inFlight;
    assert before == before[..i] + [before[i]] + before[i + 1..];
    assert before[i] in before;
    assert forall p :: p in after ==> p in before;
    assert forall p :: p in before ==> p in after || p == before[i];
  }

  lemma {:induction false} PlayRaced(s: State, moves: seq<Move>)
    requires Initial(s) && s.req.policy != RejectLate
    ensures var r := Play(Race(s, None), moves); Raced(r) && r.state.req.policy == s.req.policy
  {
    if moves != [] {
      var n := |moves| - 1;
      PlayRaced(s, moves[..n]);
      MoveRaced(Play(Race(s, None), moves[..n]), moves[n]);
    }
  }

  /** With nobody to vote only the timeout, pushes and cancellations are left. */
  lemma {:induction false} NobodyVotes(s: State, moves: seq<Move>)
    requires Initial(s) && !HasVoter(s.req.approvers)
    ensures var r := Play(Race(s, None), moves);
            r.open == None && Agreed(r.state) && r.state.req.approvers == s.req.approvers
  {
    if moves != [] {
      var n := |moves| - 1;
      NobodyVotes(s, moves[..n]);
      var before := Play(Race(s, None), moves[..n]);
      if moves[n].Timer? {
        NextAgreed(before.state, TimeoutStep(moves[n].now));
      } else if moves[n].Locked? {
        NextAgreed(before.state, moves[n].step);
      }
    }
  }

  /** A timeout that rejects, inside a vote that rejects, with the timeout's push delivered first:
      the request ends rejected and the run in timeout. */
  lemma TornVote(s: State, user: string)
    requires Initial(s) && s.req.policy == RejectLate && s.req.deadline.Some?
    requires user != "" && IsApprover(user, s.req.approvers)
    ensures exists moves ::
              var r := Play(Race(s, None), moves);
              Settled(r) && r.state.req.status == Rejected && r.state.run.status == Timeout
  {
    var late := s.req.deadline.value;
    var ballot, deliver := Ballot(user, Reject), Locked(DeliverStep(0, late));
    var r0 := Race(s, None);
    var r1, r2, r3, r4, r5 := TornMoves(s, ballot, late);
    var moves: seq<Move> := [];
    moves := PlayOn(r0, moves, r0, Begin(ballot));
    moves := PlayOn(r0, moves, r1, Timer(late));
    moves := PlayOn(r0, moves, r2, Commit);
    moves := PlayOn(r0, moves, r3, deliver);
    moves := PlayOn(r0, moves, r4, deliver);
  }

  lemma PlayOn(r0: Race, moves: seq<Move>, r: Race, m: Move) returns (more: seq<Move>)
    requires Play(r0, moves) == r
    ensures more == moves + [m] && Play(r0, more) == Moved(r, m)
  {
    more := moves + [m];
    assert more[..|moves|] == moves;
  }

  lemma TornMoves(s: State, ballot: Ballot, late: nat) returns (r1: Race, r2: Race, r3: Race, r4: Race, r5: Race)
    requires Initial(s) && s.req.policy == RejectLate && ballot.decision == Reject
    requires ballot.user != "" && IsApprover(ballot.user, s.req.approvers)
    requires s.req.deadline == Some(late)
    ensures r1 == Moved(Race(s, None), Begin(ballot)) && r2 == Moved(r1, Timer(late)) && r3 == Moved(r2, Commit)
    ensures r4 == Moved(r3, Locked(DeliverStep(0, late))) && r5 == Moved(r4, Locked(DeliverStep(0, late)))
    ensures Settled(r5) && r5.state.req.status == Rejected && r5.state.run.status == Timeout
  {
    r1 := Moved(Race(s, None), Begin(ballot));
    r2 := Moved(r1, Timer(late));
    assert r2.state.inFlight == [Timeout];
    r3 := Moved(r2, Commit);
    assert r3.state.inFlight == [Timeout, Failed];
    r4 := Moved(r3, Locked(DeliverStep(0, late)));
    assert r4.state.inFlight == [Failed];
    r5 := Moved(r4, Locked(DeliverStep(0, late)));
  }

  /** Without a deadline no timer fires. */
  lemma {:induction false} NoTimer(s: State, moves: seq<Move>)
    requires s.req.deadline == None
    ensures Play(Race(s, None), moves).state.req.deadline == None && Orderly(Race(s, None), moves)
  {
    if moves != [] {
      NoTimer(s, moves[..|moves| - 1]);
    }
  }

  /** The request and the run agree in every play exactly when a timeout does not reject, or there is none, or
      nobody can vote. */
  lemma RacesAgreeExactly(s: State)
    requires Initial(s)
    ensures (forall moves :: Settled(Play(Race(s, None), moves)) ==> Consistent(Play(Race(s, None), moves).state))
       <==> s.req.policy != RejectLate || s.req.deadline == None || !HasVoter(s.req.approvers)
  {
    if s.req.policy == RejectLate && s.req.deadline.Some? && HasVoter(s.req.approvers) {
      var user := if "*" in s.req.approvers then "a" else var a :| a in s.req.approvers && a != ""; a;
      TornVote(s, user);
      var moves :| var r := Play(Race(s, None), moves);
                   Settled(r) && r.state.req.status == Rejected && r.state.run.status == Timeout;
      assert !Consistent(Play(Race(s, None), moves).state);
    } else {
      forall moves | Settled(Play(Race(s, None), moves)) ensures Consistent(Play(Race(s, None), moves).state) {
        if s.req.policy != RejectLate {
          PlayRaced(s, moves);
        } else if s.req.deadline == None {
          NoTimer(s, moves);
          OrderlyAgrees(s, moves);
        } else {
          NobodyVotes(s, moves);
        }
      }
    }
  }

  // ---- When a decided request stays as it is ----

  lemma {:induction false} PlaySplit(r: Race, before: seq<Move>, after: seq<Move>)
    ensures Play(r, before + after) == Play(Play(r, before), after)
  {
    if after == [] {
      assert before + after == before;
    } else {
      var n := |after| - 1;
      PlaySplit(r, before, after[..n]);
      assert (before + after)[..|before + after| - 1] == before + after[..n];
    }
  }

  /** The request is decided, and an open vote can no longer be saved. */
  predicate Frozen(r: Race) {
    r.state.req.status != Waiting && (r.open.Some? ==> r.open.value.user in r.state.req.votes)
  }

  lemma {:induction false} StaysFrozen(r: Race, moves: seq<Move>)
    requires Frozen(r)
    ensures Frozen(Play(r, moves)) && Play(r, moves).state.req == r.state.req
    ensures IsTerminal(r.state.run.status) ==> Play(r, moves).state.run == r.state.run
  {
    if moves != [] {
      StaysFrozen(r, moves[..|moves| - 1]);
    }
  }

  /** A request that is decided while no vote is open keeps its status, its votes and its log. */
  lemma DecidedWhenClosed(s: State, before: seq<Move>, after: seq<Move>)
    requires Play(Race(s, None), before).open == None && Play(Race(s, None), before).state.req.status != Waiting
    ensures Play(Race(s, None), before + after).state.req == Play(Race(s, None), before).state.req
  {
    PlaySplit(Race(s, None), before, after);
    StaysFrozen(Play(Race(s, None), before), after);
  }

  /** Whoever could have a vote open when a timeout commits, and save it all the same. The timeout that
      approves stores a vote in the name of the system, and nobody votes twice under one name. */
  predicate MayOvertake(req: Request, user: string) {
    && req.deadline.Some? && req.policy != Unknown && user != "" && IsApprover(user, req.approvers)
    && (req.policy == ApproveLate ==> user != SYSTEM)
  }

  /** An open vote belongs to somebody who may vote; unless it can overtake the timeout, the request waits or
      has the name already. */
  ghost predicate Guarded(req: Request, r: Race) {
    && r.state.req.deadline == req.deadline && r.state.req.approvers == req.approvers
    && r.state.req.policy == req.policy
    && (r.open.Some? ==>
          && r.open.value.user != "" && IsApprover(r.open.value.user, req.approvers)
          && (MayOvertake(req, r.open.value.user) || r.state.req.status == Waiting || Frozen(r)))
  }

  lemma MoveGuarded(req: Request, r: Race, m: Move)
    requires Guarded(req, r)
    ensures Guarded(req, Moved(r, m))
  {
  }

  lemma {:induction false} PlayGuarded(s: State, moves: seq<Move>)
    ensures Guarded(s.req, Play(Race(s, None), moves))
  {
    if moves != [] {
      var n := |moves| - 1;
      PlayGuarded(s, moves[..n]);
      MoveGuarded(s.req, Play(Race(s, None), moves[..n]), moves[n]);
    }
  }

  /** A timeout inside a vote that rejects: the request is decided twice. */
  lemma Overtaken(s: State, user: string)
    requires Initial(s) && MayOvertake(s.req, user)
    ensures exists before, after :: DecidedAgain(s, before, after)
  {
    var late, ballot := s.req.deadline.value, Ballot(user, Reject);
    var r0 := Race(s, None);
    var moves: seq<Move> := [];
    moves := PlayOn(r0, moves, r0, Begin(ballot));
    var r1 := Moved(r0, Begin(ballot));
    var before := PlayOn(r0, moves, r1, Timer(late));
    var r2 := Moved(r1, Timer(late));
    moves := PlayOn(r0, before, r2, Commit);
    assert Moved(r2, Commit).state.req.status == Rejected;
    assert DecidedAgain(s, before, [Commit]);
  }

  ghost predicate DecidedAgain(s: State, before: seq<Move>, after: seq<Move>) {
    && Play(Race(s, None), before).state.req.status != Waiting
    && Play(Race(s, None), before + after).state.req != Play(Race(s, None), before).state.req
  }

  /** A decision is final in every play exactly when nobody's vote can overtake the timeout. */
  lemma DecidedOnceExactly(s: State)
    requires Initial(s)
    ensures (forall before, after :: !DecidedAgain(s, before, after)) <==> (forall user :: !MayOvertake(s.req, user))
  {
    if user :| MayOvertake(s.req, user) {
      Overtaken(s, user);
    } else {
      forall before, after ensures !DecidedAgain(s, before, after) {
        PlayGuarded(s, before);
        PlaySplit(Race(s, None), before, after);
        if Play(Race(s, None), before).state.req.status != Waiting {
          StaysFrozen(Play(Race(s, None), before), after);
        }
      }
    }
  }
}
