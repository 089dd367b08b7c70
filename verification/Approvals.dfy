/** An approval request, its votes and its timeout (api/internal/service/approval.go and
    api/pkg/approval/timeout.go). Each database transaction is one step; the run status that a step
    wants pushed afterwards is a message in flight.

    The functions give the verdict and the new state of every step; the class has the rows as fields, and
    its methods are proved against the functions. */
module Approvals {
  import opened Pipelines
  import opened RunStates

  datatype RequestStatus = Waiting | Approved | Rejected | TimedOut
  datatype Decision = Approve | Reject
  datatype Mode = Any | All

  /** What on_timeout asks for. */
  datatype Policy = RejectLate | ApproveLate | Pause | Unknown

  function PolicyOf(text: string): Policy {
    if text == "" || text == "reject" then RejectLate
    else if text == "approve" then ApproveLate
    else if text == "pause" then Pause
    else Unknown
  }

  datatype LogEntry = VoteLogged(user: string, decision: Decision) | TimeoutLogged(status: RequestStatus)

  /** A row of approval_requests with its rows of approvals, at most one for a user name, and its
      entries in the audit log. Times are in milliseconds. The deadline is that of a positive timeout: only
      such a timeout has a timer. */
  datatype Request = Request(
    status: RequestStatus,
    mode: Mode,
    approvers: seq<string>,
    policy: Policy,
    deadline: Option<nat>,
    votes: map<string, Decision>,
    log: seq<LogEntry>)

  /** The request, its run, and the run statuses still to be pushed. */
  datatype State = State(run: Run, req: Request, inFlight: seq<RunStatus>)

  predicate IsApprover(user: string, approvers: seq<string>) {
    "*" in approvers || user in approvers
  }

  function Supporters(votes: map<string, Decision>): set<string> {
    set u | u in votes && votes[u] == Approve
  }

  // ---- One vote ----

  datatype VoteResult =
    | ErrUsernameRequired
    | ErrRunNotInApproval
    | ErrApprovalNotFound
    | ErrNotApprover
    | ErrAlreadyVoted
    | Accepted(next: Option<RunStatus>)

  function VoteVerdict(s: State, user: string, d: Decision): VoteResult {
    if user == "" then ErrUsernameRequired
    else if s.run.status != Approval then ErrRunNotInApproval
    else if s.req.status != Waiting then ErrApprovalNotFound
    else if !IsApprover(user, s.req.approvers) then ErrNotApprover
    else if user in s.req.votes then ErrAlreadyVoted
    else Accepted(Push(Decided(s.req, user, d).status))
  }

  /** The run status that follows from a vote's outcome. */
  function Push(status: RequestStatus): Option<RunStatus> {
    match status
    case Approved => Some(Running)
    case Rejected => Some(Failed)
    case _ => None
  }

  /** The request after a vote that was let through. */
  function Decided(req: Request, user: string, d: Decision): Request {
    var votes := req.votes[user := d];
    req.(votes := votes,
         log := req.log + [VoteLogged(user, d)],
         status := if d == Reject then Rejected
                   else if req.mode == Any || |Supporters(votes)| >= |req.approvers| then Approved
                   else req.status)
  }

  function Send(inFlight: seq<RunStatus>, next: Option<RunStatus>): seq<RunStatus> {
    if next.Some? then inFlight + [next.value] else inFlight
  }

  function Voted(s: State, user: string, d: Decision): State {
    var v := VoteVerdict(s, user, d);
    if v.Accepted? then s.(req := Decided(s.req, user, d), inFlight := Send(s.inFlight, v.next)) else s
  }

  // ---- The timeout ----

  datatype TimeoutResult = NoOp | ErrInsertVote | ErrUnknownPolicy | Handled(status: RequestStatus)

  const SYSTEM := "system"
  const TOLERANCE: nat := 1000

  function TimeoutVerdict(req: Request, now: nat): TimeoutResult {
    if req.status != Waiting then NoOp
    else if req.deadline.Some? && req.deadline.value > now + TOLERANCE then NoOp
    else if req.policy == ApproveLate then
      if SYSTEM in req.votes then ErrInsertVote else Handled(Approved)
    else if req.policy == Unknown then ErrUnknownPolicy
    else Handled(TimedOut)
  }

  function LateRequest(req: Request, status: RequestStatus): Request {
    req.(status := status,
         log := req.log + [TimeoutLogged(status)],
         votes := if req.policy == ApproveLate then req.votes[SYSTEM := Approve] else req.votes)
  }

  function LatePush(policy: Policy): Option<RunStatus> {
    match policy
    case RejectLate => Some(Timeout)
    case ApproveLate => Some(Running)
    case _ => None
  }

  function Late(s: State, now: nat): State {
    var v := TimeoutVerdict(s.req, now);
    if v.Handled? then s.(req := LateRequest(s.req, v.status), inFlight := Send(s.inFlight, LatePush(s.req.policy)))
    else s
  }

  // ---- Delivery and cancellation ----

  function Delivered(s: State, i: nat, now: nat): State {
    if i < |s.inFlight| then
      s.(run := Transitioned(s.run, s.inFlight[i], now), inFlight := s.inFlight[..i] + s.inFlight[i + 1..])
    else s
  }

  function Cancelled(s: State, now: nat): State {
    s.(run := Transitioned(s.run, Canceled, now))
  }

  // ---- The service ----

  class Service {
    const run: RunRow
    var status: RequestStatus
    const mode: Mode
    const approvers: seq<string>
    const onTimeout: string
    const deadline: Option<nat>
    var votes: map<string, Decision>
    var log: seq<LogEntry>
    var inFlight: seq<RunStatus>

    ghost function Row(): Request
      reads this
    {
      Request(status, mode, approvers, PolicyOf(onTimeout), deadline, votes, log)
    }

    ghost function Current(): State
      reads this, run
    {
      State(run.Current(), Row(), inFlight)
    }

    constructor (run: RunRow, mode: Mode, approvers: seq<string>, onTimeout: string, deadline: Option<nat>)
      ensures this.run == run
      ensures Row() == Request(Waiting, mode, approvers, PolicyOf(onTimeout), deadline, map[], [])
      ensures Current() == State(run.Current(), Row(), [])
    {
      this.run, this.mode, this.approvers, this.onTimeout, this.deadline := run, mode, approvers, onTimeout, deadline;
      status, votes, log, inFlight := Waiting, map[], [], [];
    }

    method CheckApprover(user: string) returns (ok: bool)
      ensures ok == IsApprover(user, approvers)
    {
      for i := 0 to |approvers|
        invariant !IsApprover(user, approvers[..i])
      {
        if approvers[i] == "*" || approvers[i] == user {
          return true;
        }
      }
      return false;
    }

    /** vote: the transaction, with the run status it leaves to be pushed. */
    method Vote(user: string, d: Decision) returns (r: VoteResult)
      modifies this
      ensures r == VoteVerdict(old(Current()), user, d) && Current() == Voted(old(Current()), user, d)
      ensures !r.Accepted? <==>
                || user == "" || run.status != Approval || old(status) != Waiting
                || !("*" in approvers || user in approvers) || user in old(votes)
      ensures !r.Accepted? ==>
                && r == (if user == "" then ErrUsernameRequired
                         else if run.status != Approval then ErrRunNotInApproval
                         else if old(status) != Waiting then ErrApprovalNotFound
                         else if user in old(votes) && ("*" in approvers || user in approvers) then ErrAlreadyVoted
                         else ErrNotApprover)
                && status == old(status) && votes == old(votes) && log == old(log) && inFlight == old(inFlight)
      ensures r.Accepted? ==>
                && votes == old(votes)[user := d] && log == old(log) + [VoteLogged(user, d)]
                && var enough := mode == Any || |set u | u in votes && votes[u] == Approve| >= |approvers|;
                if d == Reject then
                  status == Rejected && r.next == Some(Failed) && inFlight == old(inFlight) + [Failed]
                else if enough then
                  status == Approved && r.next == Some(Running) && inFlight == old(inFlight) + [Running]
                else status == Waiting && r.next == None && inFlight == old(inFlight)
    {
      if user == "" {
        return ErrUsernameRequired;
      }
      if run.status != Approval {
        return ErrRunNotInApproval;
      }
      if status != Waiting {
        return ErrApprovalNotFound;
      }
      var ok := CheckApprover(user);
      if !ok {
        return ErrNotApprover;
      }
      if user in votes {
        return ErrAlreadyVoted;
      }
      votes := votes[user := d];
      var next: Option<RunStatus> := None;
      if d == Reject {
        status, next := Rejected, Some(Failed);
      } else {
        match mode {
          case Any =>
            status, next := Approved, Some(Running);
          case All =>
            if |Supporters(votes)| >= |approvers| {
              status, next := Approved, Some(Running);
            }
        }
      }
      log := log + [VoteLogged(user, d)];
      inFlight := Send(inFlight, next);
      return Accepted(next);
    }

    /** The timer's transaction. It does nothing to a request that is decided, or more than a second early; otherwise
        the text of on_timeout says what becomes of the request and what is to be pushed. */
    method HandleTimeout(now: nat) returns (r: TimeoutResult)
      modifies this
      ensures r == TimeoutVerdict(old(Row()), now) && Current() == Late(old(Current()), now)
      ensures old(status) != Waiting || (deadline.Some? && deadline.value > now + 1000) ==> r == NoOp
      ensures old(status) == Waiting && (deadline.Some? ==> deadline.value <= now + 1000) ==>
                r == if onTimeout in ["", "reject", "pause"] then Handled(TimedOut)
                     else if onTimeout == "approve" && "system" !in old(votes) then Handled(Approved)
                     else if onTimeout == "approve" then ErrInsertVote
                     else ErrUnknownPolicy
      ensures !r.Handled? ==>
                status == old(status) && votes == old(votes) && log == old(log) && inFlight == old(inFlight)
      ensures r.Handled? ==>
                && status == r.status && log == old(log) + [TimeoutLogged(status)]
                && votes == (if onTimeout == "approve" then old(votes)["system" := Approve] else old(votes))
                && inFlight == (if onTimeout == "pause" then old(inFlight)
                                else old(inFlight) + [if onTimeout == "approve" then Running else Timeout])
    {
      if status != Waiting {
        return NoOp;
      }
      if deadline.Some? && deadline.value > now + TOLERANCE {
        return NoOp;
      }
      var next: Option<RunStatus> := None;
      if onTimeout == "" || onTimeout == "reject" {
        status, next := TimedOut, Some(Timeout);
      } else if onTimeout == "approve" {
        if SYSTEM in votes {
          return ErrInsertVote;
        }
        votes := votes[SYSTEM := Approve];
        status, next := Approved, Some(Running);
      } else if onTimeout == "pause" {
        status := TimedOut;
      } else {
        return ErrUnknownPolicy;
      }
      log := log + [TimeoutLogged(status)];
      inFlight := Send(inFlight, next);
      return Handled(status);
    }

    /** The push after the commit: runstate.Machine in its own transaction. Its errors are only logged. */
    method Deliver(i: nat, now: nat)
      requires i < |inFlight|
      modifies this`inFlight, run
      ensures Current() == Delivered(old(Current()), i, now)
      ensures run.Current() == Transitioned(old(run.Current()), old(inFlight)[i], now)
      ensures inFlight == old(inFlight)[..i] + old(inFlight)[i + 1..]
    {
      var _ := run.Transition(inFlight[i], now);
      inFlight := inFlight[..i] + inFlight[i + 1..];
    }

    /** The timer when nothing comes between its transaction and its push, as in a run that waits for this request
        alone. */
    method Expire(now: nat, later: nat) returns (r: TimeoutResult)
      requires run.status == Approval && inFlight == []
      modifies this, run
      ensures inFlight == []
      ensures old(status) != Waiting || (deadline.Some? && deadline.value > now + 1000) ==>
                r == NoOp && Row() == old(Row()) && run.Current() == old(run.Current())
      ensures old(status) == Waiting && (deadline.Some? ==> deadline.value <= now + 1000) ==>
                if onTimeout == "approve" && "system" !in old(votes) then
                  status == Approved && votes == old(votes)["system" := Approve] && run.status == Running
                else if onTimeout == "" || onTimeout == "reject" then
                  status == TimedOut && votes == old(votes) && run.status == Timeout
                else if onTimeout == "pause" then
                  status == TimedOut && votes == old(votes) && run.Current() == old(run.Current())
                else
                  r in {ErrInsertVote, ErrUnknownPolicy} && Row() == old(Row()) && run.Current() == old(run.Current())
    {
      r := HandleTimeout(now);
      if |inFlight| > 0 {
        Deliver(0, later);
      }
    }

    method Cancel(now: nat) returns (r: TransitionResult)
      modifies run
      ensures r == TransitionVerdict(old(run.status), Canceled) && Current() == Cancelled(old(Current()), now)
      ensures run.Current() == Transitioned(old(run.Current()), Canceled, now)
    {
      r := run.Transition(Canceled, now);
    }
  }
}
