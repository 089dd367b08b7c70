/** The status of a run and its two writers: the state machine (api/pkg/runstate/runstate.go) and the
    worker's repository (api/pkg/runrepo/runrepo.go). */
module RunStates {
  import opened Pipelines

  datatype RunStatus = Pending | Running | Approval | Success | Failed | Canceled | Timeout

  predicate IsTerminal(s: RunStatus) {
    s == Success || s == Failed || s == Canceled || s == Timeout
  }

  predicate CanTransition(from: RunStatus, to: RunStatus) {
    match from
    case Pending => to == Running || to == Canceled
    case Running => to == Approval || to == Success || to == Failed || to == Canceled
    case Approval => to == Running || to == Failed || to == Timeout || to == Canceled
    case _ => false
  }

  datatype AuditEntry = AuditEntry(from: RunStatus, to: RunStatus)

  /** One row of the runs table with the state machine's entries in the audit log. */
  datatype Run = Run(
    status: RunStatus,
    startedAt: Option<nat>,
    finishedAt: Option<nat>,
    audit: seq<AuditEntry>)

  const NEW_RUN := Run(Pending, None, None, [])

  datatype TransitionResult = Done(status: RunStatus) | ErrTerminal | ErrIllegal

  function TransitionVerdict(from: RunStatus, to: RunStatus): TransitionResult {
    if from == to then Done(from)
    else if IsTerminal(from) then ErrTerminal
    else if !CanTransition(from, to) then ErrIllegal
    else Done(to)
  }

  function Transitioned(run: Run, to: RunStatus, now: nat): Run {
    if run.status == to || !CanTransition(run.status, to) then run
    else Run(
      to,
      if to == Running && run.startedAt == None then Some(now) else run.startedAt,
      if IsTerminal(to) && run.finishedAt == None then Some(now) else run.finishedAt,
      run.audit + [AuditEntry(run.status, to)])
  }

  function RepoRunning(run: Run, now: nat): Run {
    if run.status == Pending then run.(status := Running, startedAt := Some(now)) else run
  }

  function RepoFailed(run: Run, now: nat): Run {
    if run.status == Pending || run.status == Running
    then run.(status := Failed, finishedAt := Some(now)) else run
  }

  // ---- The writers ----

  class RunRow {
    var status: RunStatus
    var startedAt: Option<nat>
    var finishedAt: Option<nat>
    var audit: seq<AuditEntry>

    ghost function Current(): Run
      reads this
    {
      Run(status, startedAt, finishedAt, audit)
    }

    constructor ()
      ensures Current() == NEW_RUN
    {
      status, startedAt, finishedAt, audit := Pending, None, None, [];
    }

    /** runstate.Machine.Transition: one transaction that locks the row. */
    method Transition(to: RunStatus, now: nat) returns (r: TransitionResult)
      modifies this
      ensures r == TransitionVerdict(old(status), to)
      ensures Current() == Transitioned(old(Current()), to, now)
      ensures r.Done? ==> r == Done(to)
      ensures r.Done? <==>
                || to == old(status)
                || (old(status) == Pending && to in {Running, Canceled})
                || (old(status) == Running && to in {Approval, Success, Failed, Canceled})
                || (old(status) == Approval && to in {Running, Failed, Timeout, Canceled})
      ensures r == ErrTerminal <==> to != old(status) && old(status) in {Success, Failed, Canceled, Timeout}
      ensures !r.Done? || to == old(status) ==> Current() == old(Current())
      ensures r.Done? && to != old(status) ==>
                && status == to && audit == old(audit) + [AuditEntry(old(status), to)]
                && startedAt == (if to == Running && old(startedAt).None? then Some(now) else old(startedAt))
                && finishedAt == (if to in {Success, Failed, Canceled, Timeout} && old(finishedAt).None? then Some(now)
                                  else old(finishedAt))
    {
      var cur := status;
      if IsTerminal(cur) {
        if cur == to {
          return Done(cur);
        }
        return ErrTerminal;
      }
      if cur == to {
        return Done(cur);
      }
      if !CanTransition(cur, to) {
        return ErrIllegal;
      }
      match to {
        case Running =>
          if startedAt == None {
            startedAt := Some(now);
          }
        case Success | Failed | Canceled | Timeout =>
          if finishedAt == None {
            finishedAt := Some(now);
          }
        case _ =>
      }
      status := to;
      audit := audit + [AuditEntry(cur, to)];
      return Done(to);
    }

    /** runrepo.Repo.MarkRunning: a conditional update without an audit entry. */
    method RepoMarkRunning(now: nat) returns (changed: bool)
      modifies this
      ensures changed <==> old(status) == Pending
      ensures Current() == RepoRunning(old(Current()), now)
      ensures status == (if changed then Running else old(status)) && finishedAt == old(finishedAt)
      ensures startedAt == (if changed then Some(now) else old(startedAt)) && audit == old(audit)
    {
      if status == Pending {
        status, startedAt := Running, Some(now);
        return true;
      }
      return false;
    }

    /** runrepo.Repo.MarkFailed; `found` is false where the source returns ErrNotFound. */
    method RepoMarkFailed(now: nat) returns (found: bool)
      modifies this
      ensures found <==> old(status) in {Pending, Running}
      ensures Current() == RepoFailed(old(Current()), now)
      ensures status == (if found then Failed else old(status)) && startedAt == old(startedAt)
      ensures finishedAt == (if found then Some(now) else old(finishedAt)) && audit == old(audit)
    {
      if status == Pending || status == Running {
        status, finishedAt := Failed, Some(now);
        return true;
      }
      return false;
    }
  }

  // ---- Histories ----

  datatype Write =
    | ByMachine(to: RunStatus, now: nat)
    | ByRepoRunning(now: nat)
    | ByRepoFailed(now: nat)

  function Written(run: Run, w: Write): Run {
    match w
    case ByMachine(to, now) => Transitioned(run, to, now)
    case ByRepoRunning(now) => RepoRunning(run, now)
    case ByRepoFailed(now) => RepoFailed(run, now)
  }

  function History(run: Run, writes: seq<Write>): Run {
    if writes == [] then run
    else Written(History(run, writes[..|writes| - 1]), writes[|writes| - 1])
  }

  /** The time stamps tell what has happened to the run. */
  predicate Stamped(run: Run) {
    && (run.finishedAt.Some? <==> IsTerminal(run.status))
    && (run.status == Pending ==> run.startedAt == None)
    && (run.status in {Running, Approval, Success, Timeout} ==> run.startedAt.Some?)
  }

  lemma WrittenStamped(run: Run, w: Write)
    requires Stamped(run)
    ensures Stamped(Written(run, w))
    ensures run.startedAt.Some? ==> Written(run, w).startedAt == run.startedAt
    ensures IsTerminal(run.status) ==> Written(run, w) == run
    ensures Written(run, w).status == run.status || CanTransition(run.status, Written(run, w).status) ||
            (w.ByRepoFailed? && run.status == Pending)
  {
  }

  lemma {:induction false} HistoryStamped(writes: seq<Write>)
    ensures Stamped(History(NEW_RUN, writes))
  {
    if writes != [] {
      HistoryStamped(writes[..|writes| - 1]);
      WrittenStamped(History(NEW_RUN, writes[..|writes| - 1]), writes[|writes| - 1]);
    }
  }

  /** Whatever both writers do after a moment: a terminal row is frozen, and a start time, once set, stays. */
  lemma {:induction false} HistoryFreezes(before: seq<Write>, after: seq<Write>)
    ensures IsTerminal(History(NEW_RUN, before).status) ==>
              History(NEW_RUN, before + after) == History(NEW_RUN, before)
    ensures History(NEW_RUN, before).startedAt.Some? ==>
              History(NEW_RUN, before + after).startedAt == History(NEW_RUN, before).startedAt
  {
    if after == [] {
      assert before + after == before;
    } else {
      var n := |after| - 1;
      HistoryFreezes(before, after[..n]);
      HistoryStamped(before + after[..n]);
      assert (before + after)[..|before + after| - 1] == before + after[..n];
      WrittenStamped(History(NEW_RUN, before + after[..n]), after[n]);
    }
  }

  /** The audit log is a path of the transition matrix from `from` to `to`. */
  predicate AuditPath(audit: seq<AuditEntry>, from: RunStatus, to: RunStatus) {
    if audit == [] then from == to
    else
      var last := audit[|audit| - 1];
      last.to == to && CanTransition(last.from, to) && AuditPath(audit[..|audit| - 1], from, last.from)
  }

  /** With the state machine as the only writer the audit log replays the run; the repository writes no
      entries, so in general the log ends where the machine last left the run. */
  lemma {:induction false} AuditReplays(writes: seq<Write>)
    requires forall w :: w in writes ==> w.ByMachine?
    ensures AuditPath(History(NEW_RUN, writes).audit, Pending, History(NEW_RUN, writes).status)
  {
    if writes != [] {
      var n := |writes| - 1;
      AuditReplays(writes[..n]);
      var run, run' := History(NEW_RUN, writes[..n]), History(NEW_RUN, writes);
      assert writes[n].ByMachine?;
      if run' != run {
        assert run'.audit[..|run'.audit| - 1] == run.audit;
      }
    }
  }

  /** How often the status changed. */
  function Changes(run: Run, writes: seq<Write>): nat {
    if writes == [] then 0
    else
      var prev := History(run, writes[..|writes| - 1]);
      Changes(run, writes[..|writes| - 1]) + if Written(prev, writes[|writes| - 1]).status == prev.status then 0 else 1
  }

  /** How often the repository changed it. */
  function RepoChanges(run: Run, writes: seq<Write>): nat {
    if writes == [] then 0
    else
      var prev, w := History(run, writes[..|writes| - 1]), writes[|writes| - 1];
      RepoChanges(run, writes[..|writes| - 1]) +
      if w.ByMachine? || Written(prev, w).status == prev.status then 0 else 1
  }

  /** The log has one entry for each status change that the repository did not make, so it is complete
      exactly when no repository write took effect. */
  lemma {:induction false} AuditCounts(writes: seq<Write>)
    ensures |History(NEW_RUN, writes).audit| + RepoChanges(NEW_RUN, writes) == Changes(NEW_RUN, writes)
  {
    if writes != [] {
      AuditCounts(writes[..|writes| - 1]);
    }
  }
}
