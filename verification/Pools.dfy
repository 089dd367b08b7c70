/** Parallel execution (api/pkg/sshrunner/batch.go): goroutines, a semaphore and a failure counter. */
module Pools {
  import opened Batches
  import opened Pipelines

  /** Where a goroutine is. Every step between two synchronisation points is one move, and any goroutine
      that is not blocked may move next. From Admitted to Finished it holds the semaphore. */
  datatype Phase =
    | Queued
    | Admitted
    | Refused
    | Working
    | Written(failed: bool)
    | Finished(failed: bool)
    | Gone(failed: bool)

  datatype Pool = Pool(phases: seq<Phase>, failures: nat, results: seq<HostResult>)

  const EMPTY := HostResult("", None)

  function Start(n: nat): Pool {
    Pool(seq(n, _ => Queued), 0, seq(n, _ => EMPTY))
  }

  // ---- Counting goroutines ----

  datatype Kind = AtRisk | Idle | Failing | Left

  /** AtRisk: running, or failed and not yet counted. Idle: holding the semaphore otherwise.
      Failing: failed and counted. Left: moves still to make. */
  function Weight(kind: Kind, ph: Phase): nat {
    match kind
    case AtRisk => if ph == Working || ph == Written(true) then 1 else 0
    case Idle => if ph == Admitted || ph == Refused || ph == Written(false) || ph.Finished? then 1 else 0
    case Failing => if ph == Finished(true) || ph == Gone(true) then 1 else 0
    case Left =>
      match ph
      case Queued => 5
      case Admitted => 4
      case Refused => 2
      case Working => 3
      case Written(_) => 2
      case Finished(_) => 1
      case Gone(_) => 0
  }

  function Total(kind: Kind, phases: seq<Phase>): nat {
    if phases == [] then 0 else Total(kind, phases[..|phases| - 1]) + Weight(kind, phases[|phases| - 1])
  }

  lemma {:induction false} TotalUpdate(kind: Kind, phases: seq<Phase>, i: nat, ph: Phase)
    requires i < |phases|
    ensures Total(kind, phases[i := ph]) + Weight(kind, phases[i]) == Total(kind, phases) + Weight(kind, ph)
  {
    var n := |phases| - 1;
    if i < n {
      TotalUpdate(kind, phases[..n], i, ph);
      assert phases[i := ph][..n] == phases[..n][i := ph];
    } else {
      assert phases[i := ph][..n] == phases[..n];
    }
  }

  lemma {:induction false} TotalAtLeast(kind: Kind, phases: seq<Phase>, i: nat)
    requires i < |phases|
    ensures Weight(kind, phases[i]) <= Total(kind, phases)
  {
    if i < |phases| - 1 {
      TotalAtLeast(kind, phases[..|phases| - 1], i);
    }
  }

  lemma {:induction false} TotalZero(kind: Kind, phases: seq<Phase>)
    requires forall ph :: ph in phases ==> Weight(kind, ph) == 0
    ensures Total(kind, phases) == 0
  {
    if phases != [] {
      TotalZero(kind, phases[..|phases| - 1]);
    }
  }

  function Holders(phases: seq<Phase>): nat {
    Total(AtRisk, phases) + Total(Idle, phases)
  }

  // ---- Moves ----

  predicate Enabled(opts: BatchOpts, p: Pool, i: nat) {
    i < |p.phases| && !p.phases[i].Gone? && (p.phases[i].Queued? ==> Holders(p.phases) < opts.maxConcurrency)
  }

  function NextPhase(opts: BatchOpts, ph: Phase, failures: nat, error: Option<string>): Phase {
    match ph
    case Queued => Admitted
    case Admitted => if ShouldStop(opts, failures) then Refused else Working
    case Refused => Finished(false)
    case Working => Written(error.Some?)
    case Written(failed) => Finished(failed)
    case Finished(failed) => Gone(failed)
    case Gone(_) => ph
  }

  function Moved(opts: BatchOpts, hosts: seq<string>, errors: seq<Option<string>>, p: Pool, i: nat): Pool
    requires |hosts| == |errors| == |p.phases| == |p.results| && i < |hosts|
  {
    Pool(
      p.phases[i := NextPhase(opts, p.phases[i], p.failures, errors[i])],
      if p.phases[i] == Written(true) then p.failures + 1 else p.failures,
      if p.phases[i].Refused? then p.results[i := HostResult(hosts[i], STOPPED)]
      else if p.phases[i].Working? then p.results[i := HostResult(hosts[i], errors[i])]
      else p.results)
  }

  // ---- What every interleaving keeps ----

  /** The slot of goroutine `i`: empty until it is written, then what was written. */
  predicate Slot(opts: BatchOpts, host: string, error: Option<string>, failures: nat, ph: Phase, r: HostResult) {
    match ph
    case Written(failed) => r == HostResult(host, error) && failed == error.Some?
    case Finished(failed) => Outcome(opts, host, error, failures, failed, r)
    case Gone(failed) => Outcome(opts, host, error, failures, failed, r)
    case Refused => r == EMPTY && ShouldStop(opts, failures)
    case _ => r == EMPTY
  }

  predicate Outcome(opts: BatchOpts, host: string, error: Option<string>, failures: nat, failed: bool, r: HostResult) {
    || (r == HostResult(host, error) && failed == error.Some?)
    || (r == HostResult(host, STOPPED) && !failed && ShouldStop(opts, failures))
  }

  predicate Sized(hosts: seq<string>, errors: seq<Option<string>>, p: Pool) {
    |hosts| == |errors| == |p.phases| == |p.results|
  }

  /** The threshold can be exceeded only by hosts that were running when it was reached. */
  predicate Bounded(opts: BatchOpts, p: Pool) {
    && opts.maxConcurrency > 0
    && Holders(p.phases) <= opts.maxConcurrency
    && p.failures == Total(Failing, p.phases)
    && p.failures + Total(AtRisk, p.phases) <= Threshold(opts) - 1 + opts.maxConcurrency
  }

  predicate Slots(opts: BatchOpts, hosts: seq<string>, errors: seq<Option<string>>, p: Pool)
    requires Sized(hosts, errors, p)
  {
    forall i :: 0 <= i < |hosts| ==> Slot(opts, hosts[i], errors[i], p.failures, p.phases[i], p.results[i])
  }

  lemma StartBounded(opts: BatchOpts, hosts: seq<string>, errors: seq<Option<string>>)
    requires opts.maxConcurrency > 0 && |hosts| == |errors|
    ensures Bounded(opts, Start(|hosts|)) && Slots(opts, hosts, errors, Start(|hosts|))
    ensures Holders(Start(|hosts|).phases) == 0
  {
    TotalZero(AtRisk, Start(|hosts|).phases);
    TotalZero(Idle, Start(|hosts|).phases);
    TotalZero(Failing, Start(|hosts|).phases);
  }

  lemma MoveBounded(opts: BatchOpts, hosts: seq<string>, errors: seq<Option<string>>, p: Pool, i: nat)
    requires Sized(hosts, errors, p) && Bounded(opts, p) && Enabled(opts, p, i)
    ensures Bounded(opts, Moved(opts, hosts, errors, p, i))
    ensures Total(Left, Moved(opts, hosts, errors, p, i).phases) < Total(Left, p.phases)
    ensures p.phases[i].Finished? ==> Holders(p.phases) > 0
    ensures Holders(Moved(opts, hosts, errors, p, i).phases)
         == Holders(p.phases) + if p.phases[i].Queued? then 1 else if p.phases[i].Finished? then -1 else 0
  {
    var ph := NextPhase(opts, p.phases[i], p.failures, errors[i]);
    TotalUpdate(AtRisk, p.phases, i, ph);
    TotalUpdate(Idle, p.phases, i, ph);
    TotalUpdate(Failing, p.phases, i, ph);
    TotalUpdate(Left, p.phases, i, ph);
    TotalAtLeast(Idle, p.phases, i);
  }

  lemma MoveSlots(opts: BatchOpts, hosts: seq<string>, errors: seq<Option<string>>, p: Pool, i: nat)
    requires Sized(hosts, errors, p) && Slots(opts, hosts, errors, p) && i < |hosts|
    ensures Slots(opts, hosts, errors, Moved(opts, hosts, errors, p, i))
  {
    var q := Moved(opts, hosts, errors, p, i);
    forall j | 0 <= j < |hosts| ensures Slot(opts, hosts[j], errors[j], q.failures, q.phases[j], q.results[j]) {
      assert Slot(opts, hosts[j], errors[j], p.failures, p.phases[j], p.results[j]);
    }
  }

  // ---- Whole runs ----

  /** The goroutines move in the order of `schedule`; a blocked one stays where it is. */
  function Play(opts: BatchOpts, hosts: seq<string>, errors: seq<Option<string>>, p: Pool, schedule: seq<nat>)
    : (q: Pool)
    requires Sized(hosts, errors, p)
    ensures Sized(hosts, errors, q)
  {
    if schedule == [] then p
    else
      var n := |schedule| - 1;
      var before := Play(opts, hosts, errors, p, schedule[..n]);
      if Enabled(opts, before, schedule[n]) then Moved(opts, hosts, errors, before, schedule[n]) else before
  }

  predicate AllGone(p: Pool) {
    forall ph :: ph in p.phases ==> ph.Gone?
  }

  lemma {:induction false} PlayKeeps(opts: BatchOpts, hosts: seq<string>, errors: seq<Option<string>>,
                                     schedule: seq<nat>)
    requires opts.maxConcurrency > 0 && |hosts| == |errors|
    ensures var p := Play(opts, hosts, errors, Start(|hosts|), schedule);
            Bounded(opts, p) && Slots(opts, hosts, errors, p)
  {
    if schedule == [] {
      StartBounded(opts, hosts, errors);
    } else {
      var n := |schedule| - 1;
      PlayKeeps(opts, hosts, errors, schedule[..n]);
      var before := Play(opts, hosts, errors, Start(|hosts|), schedule[..n]);
      if Enabled(opts, before, schedule[n]) {
        MoveBounded(opts, hosts, errors, before, schedule[n]);
        MoveSlots(opts, hosts, errors, before, schedule[n]);
      }
    }
  }

  function Running(phases: seq<Phase>): nat {
    if phases == [] then 0 else Running(phases[..|phases| - 1]) + if phases[|phases| - 1].Working? then 1 else 0
  }

  lemma {:induction false} RunningAtRisk(phases: seq<Phase>)
    ensures Running(phases) <= Total(AtRisk, phases)
  {
    if phases != [] {
      RunningAtRisk(phases[..|phases| - 1]);
    }
  }

  /** Tasks that have failed, counted already or not. */
  function FailedTasks(phases: seq<Phase>): nat {
    if phases == [] then 0
    else
      var n := |phases| - 1;
      FailedTasks(phases[..n]) +
      if phases[n] == Written(true) || phases[n] == Finished(true) || phases[n] == Gone(true) then 1 else 0
  }

  lemma {:induction false} FailedAtRisk(phases: seq<Phase>)
    ensures Running(phases) + FailedTasks(phases) == Total(AtRisk, phases) + Total(Failing, phases)
  {
    if phases != [] {
      FailedAtRisk(phases[..|phases| - 1]);
    }
  }

  /** In every interleaving, at every moment, at most `maxConcurrency` host tasks are running, and at most
      T - 1 + maxConcurrency have failed or are still running. */
  lemma ParallelBound(opts: BatchOpts, hosts: seq<string>, errors: seq<Option<string>>, schedule: seq<nat>)
    requires opts.maxConcurrency > 0 && |hosts| == |errors|
    ensures var p := Play(opts, hosts, errors, Start(|hosts|), schedule);
            && Running(p.phases) <= opts.maxConcurrency
            && p.failures <= FailedTasks(p.phases)
            && Running(p.phases) + FailedTasks(p.phases) <= Threshold(opts) - 1 + opts.maxConcurrency
  {
    PlayKeeps(opts, hosts, errors, schedule);
    FailedAtRisk(Play(opts, hosts, errors, Start(|hosts|), schedule).phases);
    RunningAtRisk(Play(opts, hosts, errors, Start(|hosts|), schedule).phases);
  }

  /** A slot that has been written is not written again. */
  lemma {:induction false} WrittenOnce(opts: BatchOpts, hosts: seq<string>, errors: seq<Option<string>>, p: Pool,
                                       schedule: seq<nat>, i: nat)
    requires Sized(hosts, errors, p) && i < |hosts|
    requires p.phases[i].Written? || p.phases[i].Finished? || p.phases[i].Gone?
    ensures var q := Play(opts, hosts, errors, p, schedule);
            && q.results[i] == p.results[i]
            && (q.phases[i].Written? || q.phases[i].Finished? || q.phases[i].Gone?)
  {
    if schedule != [] {
      WrittenOnce(opts, hosts, errors, p, schedule[..|schedule| - 1], i);
    }
  }

  /** Nothing deadlocks: as long as a goroutine is left, one can move. */
  lemma SomeoneMoves(opts: BatchOpts, p: Pool) returns (i: nat)
    requires opts.maxConcurrency > 0 && !AllGone(p)
    ensures Enabled(opts, p, i)
  {
    var ph :| ph in p.phases && !ph.Gone?;
    i :| 0 <= i < |p.phases| && p.phases[i] == ph;
    if !Enabled(opts, p, i) {
      if j :| 0 <= j < |p.phases| && !p.phases[j].Queued? && !p.phases[j].Gone? {
        i := j;
      } else {
        TotalZero(AtRisk, p.phases);
        TotalZero(Idle, p.phases);
      }
    }
  }

  // ---- At the end ----

  /** Every host has a result, its own or the mark of a stop; a stop needs the threshold to be reached. */
  predicate Complete(opts: BatchOpts, hosts: seq<string>, errors: seq<Option<string>>, failures: nat,
                     results: seq<HostResult>)
    requires |hosts| == |errors|
  {
    && |results| == |hosts|
    && forall i :: 0 <= i < |hosts| ==>
         results[i] == HostResult(hosts[i], errors[i]) ||
         (results[i] == HostResult(hosts[i], Some("stopped: failure threshold reached")) && failures >= Threshold(opts))
  }

  lemma EndIsComplete(opts: BatchOpts, hosts: seq<string>, errors: seq<Option<string>>, p: Pool)
    requires Sized(hosts, errors, p) && Slots(opts, hosts, errors, p) && AllGone(p)
    ensures Complete(opts, hosts, errors, p.failures, p.results)
  {
    forall i | 0 <= i < |hosts|
      ensures p.results[i] == HostResult(hosts[i], errors[i]) ||
              (p.results[i] == HostResult(hosts[i], STOPPED) && p.failures >= Threshold(opts))
    {
      assert p.phases[i] in p.phases;
      assert Slot(opts, hosts[i], errors[i], p.failures, p.phases[i], p.results[i]);
    }
  }

  lemma {:induction false} FailingCount(errors: seq<Option<string>>, phases: seq<Phase>)
    requires |phases| == |errors|
    requires forall i :: 0 <= i < |phases| ==> Weight(Failing, phases[i]) == 1 ==> errors[i].Some?
    ensures Total(Failing, phases) <= Failures(errors)
    ensures (forall i :: 0 <= i < |phases| ==> errors[i].Some? ==> Weight(Failing, phases[i]) == 1) ==>
              Total(Failing, phases) == Failures(errors)
  {
    if phases != [] {
      var n := |phases| - 1;
      FailingCount(errors[..n], phases[..n]);
    }
  }

  /** At the end the counted failures are hosts that failed, and all of them unless the threshold was reached. */
  lemma EndCounts(opts: BatchOpts, hosts: seq<string>, errors: seq<Option<string>>, p: Pool)
    requires Sized(hosts, errors, p) && Bounded(opts, p) && Slots(opts, hosts, errors, p) && AllGone(p)
    ensures p.failures <= Failures(errors)
    ensures p.failures < Threshold(opts) ==> p.failures == Failures(errors)
  {
    forall i | 0 <= i < |hosts|
      ensures Weight(Failing, p.phases[i]) == 1 ==> errors[i].Some?
      ensures p.failures < Threshold(opts) && errors[i].Some? ==> Weight(Failing, p.phases[i]) == 1
    {
      assert p.phases[i] in p.phases;
      assert Slot(opts, hosts[i], errors[i], p.failures, p.phases[i], p.results[i]);
    }
    FailingCount(errors, p.phases);
  }

  /** With fewer failing hosts than the threshold every interleaving runs every host. */
  lemma NothingStops(opts: BatchOpts, hosts: seq<string>, errors: seq<Option<string>>, schedule: seq<nat>)
    requires opts.maxConcurrency > 0 && |hosts| == |errors| && Failures(errors) < Threshold(opts)
    requires AllGone(Play(opts, hosts, errors, Start(|hosts|), schedule))
    ensures RanFirst(hosts, errors, |hosts|, Play(opts, hosts, errors, Start(|hosts|), schedule).results)
  {
    var p := Play(opts, hosts, errors, Start(|hosts|), schedule);
    PlayKeeps(opts, hosts, errors, schedule);
    EndIsComplete(opts, hosts, errors, p);
    EndCounts(opts, hosts, errors, p);
  }

  // ---- The bound is reached ----

  ghost predicate Leads(opts: BatchOpts, hosts: seq<string>, errors: seq<Option<string>>, p: Pool, q: Pool) {
    Sized(hosts, errors, p) && exists schedule :: Play(opts, hosts, errors, p, schedule) == q
  }

  lemma {:induction false} PlayOn(opts: BatchOpts, hosts: seq<string>, errors: seq<Option<string>>, p: Pool,
                                  first: seq<nat>, next: seq<nat>)
    requires Sized(hosts, errors, p)
    ensures Play(opts, hosts, errors, p, first + next)
         == Play(opts, hosts, errors, Play(opts, hosts, errors, p, first), next)
  {
    if next == [] {
      assert first + next == first;
    } else {
      var n := |next| - 1;
      assert (first + next)[..|first + next| - 1] == first + next[..n];
      PlayOn(opts, hosts, errors, p, first, next[..n]);
    }
  }

  lemma LeadsOn(opts: BatchOpts, hosts: seq<string>, errors: seq<Option<string>>, p: Pool, q: Pool, r: Pool)
    requires Leads(opts, hosts, errors, p, q) && Leads(opts, hosts, errors, q, r)
    ensures Leads(opts, hosts, errors, p, r)
  {
    var first :| Play(opts, hosts, errors, p, first) == q;
    var next :| Play(opts, hosts, errors, q, next) == r;
    PlayOn(opts, hosts, errors, p, first, next);
  }

  lemma LeadsStep(opts: BatchOpts, hosts: seq<string>, errors: seq<Option<string>>, p: Pool, q: Pool, i: nat)
    requires Leads(opts, hosts, errors, p, q) && Enabled(opts, q, i)
    ensures Sized(hosts, errors, q) && Leads(opts, hosts, errors, p, Moved(opts, hosts, errors, q, i))
  {
    var schedule :| Play(opts, hosts, errors, p, schedule) == q;
    assert (schedule + [i])[..|schedule|] == schedule;
    assert Play(opts, hosts, errors, p, schedule + [i]) == Moved(opts, hosts, errors, q, i);
  }

  /** `a` hosts have failed and are gone, `b` are running, the rest are queued. */
  function Stage(hosts: seq<string>, errors: seq<Option<string>>, a: nat, b: nat): Pool
    requires |hosts| == |errors| && a + b <= |hosts|
  {
    Pool(seq(|hosts|, i => if i < a then Gone(true) else if i < a + b then Working else Queued),
         a,
         seq(|hosts|, i requires 0 <= i < |hosts| => if i < a then HostResult(hosts[i], errors[i]) else EMPTY))
  }

  lemma {:induction false} StageHolders(hosts: seq<string>, errors: seq<Option<string>>, a: nat, b: nat, m: nat)
    requires |hosts| == |errors| && a + b <= |hosts| && m <= |hosts|
    ensures Holders(Stage(hosts, errors, a, b).phases[..m]) <= b
    ensures m <= a ==> Holders(Stage(hosts, errors, a, b).phases[..m]) == 0
    ensures a <= m <= a + b ==> Holders(Stage(hosts, errors, a, b).phases[..m]) <= m - a
  {
    if m > 0 {
      StageHolders(hosts, errors, a, b, m - 1);
      var phases := Stage(hosts, errors, a, b).phases;
      assert phases[..m][..m - 1] == phases[..m - 1];
    }
  }

  lemma StageAdmits(opts: BatchOpts, hosts: seq<string>, errors: seq<Option<string>>, a: nat, b: nat)
    requires |hosts| == |errors| && a + b < |hosts| && a < Threshold(opts) && b < opts.maxConcurrency
    ensures Leads(opts, hosts, errors, Stage(hosts, errors, a, b), Stage(hosts, errors, a, b + 1))
  {
    var p, i := Stage(hosts, errors, a, b), a + b;
    var q := StageMoves(opts, hosts, errors, a, b);
    assert Play(opts, hosts, errors, p, []) == p;
    hide Stage, Moved, Play, Enabled;
    LeadsStep(opts, hosts, errors, p, p, i);
    LeadsStep(opts, hosts, errors, p, q, i);
  }

  /** The first queued host is admitted and starts. */
  lemma StageMoves(opts: BatchOpts, hosts: seq<string>, errors: seq<Option<string>>, a: nat, b: nat) returns (q: Pool)
    requires |hosts| == |errors| && a + b < |hosts| && a < Threshold(opts) && b < opts.maxConcurrency
    ensures var p := Stage(hosts, errors, a, b);
            && Enabled(opts, p, a + b) && q == Moved(opts, hosts, errors, p, a + b)
            && Sized(hosts, errors, q) && Enabled(opts, q, a + b)
            && Moved(opts, hosts, errors, q, a + b) == Stage(hosts, errors, a, b + 1)
  {
    var p := Stage(hosts, errors, a, b);
    StageHolders(hosts, errors, a, b, |hosts|);
    assert p.phases[..|hosts|] == p.phases;
    hide Holders;
    q := Moved(opts, hosts, errors, p, a + b);
    assert Moved(opts, hosts, errors, q, a + b).phases == Stage(hosts, errors, a, b + 1).phases;
  }

  lemma StageFails(opts: BatchOpts, hosts: seq<string>, errors: seq<Option<string>>, a: nat, b: nat)
    requires |hosts| == |errors| && a + b <= |hosts| && b > 0 && errors[a].Some?
    ensures Leads(opts, hosts, errors, Stage(hosts, errors, a, b), Stage(hosts, errors, a + 1, b - 1))
  {
    var p := Stage(hosts, errors, a, b);
    assert Play(opts, hosts, errors, p, []) == p;
    LeadsStep(opts, hosts, errors, p, p, a);
    var q := Moved(opts, hosts, errors, p, a);
    LeadsStep(opts, hosts, errors, p, q, a);
    var r := Moved(opts, hosts, errors, q, a);
    LeadsStep(opts, hosts, errors, p, r, a);
    assert Moved(opts, hosts, errors, r, a) == Stage(hosts, errors, a + 1, b - 1);
  }

  predicate AllFail(errors: seq<Option<string>>) {
    forall i :: 0 <= i < |errors| ==> errors[i].Some?
  }

  /** One host after the other fails, until one more failure would reach the threshold. */
  lemma {:induction false} FailInTurn(opts: BatchOpts, hosts: seq<string>, errors: seq<Option<string>>, a: nat)
    requires |hosts| == |errors| && AllFail(errors) && opts.maxConcurrency > 0 && a < Threshold(opts) && a <= |hosts|
    ensures Leads(opts, hosts, errors, Stage(hosts, errors, 0, 0), Stage(hosts, errors, a, 0))
  {
    if a == 0 {
      assert Play(opts, hosts, errors, Stage(hosts, errors, 0, 0), []) == Stage(hosts, errors, 0, 0);
    } else {
      FailInTurn(opts, hosts, errors, a - 1);
      StageAdmits(opts, hosts, errors, a - 1, 0);
      StageFails(opts, hosts, errors, a - 1, 1);
      hide Leads, Stage;
      var start, p := Stage(hosts, errors, 0, 0), Stage(hosts, errors, a - 1, 0);
      LeadsOn(opts, hosts, errors, p, Stage(hosts, errors, a - 1, 1), Stage(hosts, errors, a, 0));
      LeadsOn(opts, hosts, errors, start, p, Stage(hosts, errors, a, 0));
    }
  }

  /** Then as many as may run start together. */
  lemma {:induction false} StartTogether(opts: BatchOpts, hosts: seq<string>, errors: seq<Option<string>>,
                                         a: nat, b: nat)
    requires |hosts| == |errors| && AllFail(errors) && b <= opts.maxConcurrency && a < Threshold(opts)
    requires opts.maxConcurrency > 0 && a + b <= |hosts|
    ensures Leads(opts, hosts, errors, Stage(hosts, errors, 0, 0), Stage(hosts, errors, a, b))
  {
    if b == 0 {
      FailInTurn(opts, hosts, errors, a);
    } else {
      StartTogether(opts, hosts, errors, a, b - 1);
      StageAdmits(opts, hosts, errors, a, b - 1);
      hide Leads, Stage;
      LeadsOn(opts, hosts, errors, Stage(hosts, errors, 0, 0), Stage(hosts, errors, a, b - 1),
              Stage(hosts, errors, a, b));
    }
  }

  /** And fail together. */
  lemma {:induction false} FailTogether(opts: BatchOpts, hosts: seq<string>, errors: seq<Option<string>>,
                                        a: nat, b: nat, c: nat)
    requires |hosts| == |errors| && AllFail(errors) && c <= b <= opts.maxConcurrency && a < Threshold(opts)
    requires opts.maxConcurrency > 0 && a + b <= |hosts|
    ensures Leads(opts, hosts, errors, Stage(hosts, errors, 0, 0), Stage(hosts, errors, a + c, b - c))
  {
    if c == 0 {
      StartTogether(opts, hosts, errors, a, b);
    } else {
      FailTogether(opts, hosts, errors, a, b, c - 1);
      StageFails(opts, hosts, errors, a + c - 1, b - c + 1);
      hide Leads, Stage;
      LeadsOn(opts, hosts, errors, Stage(hosts, errors, 0, 0), Stage(hosts, errors, a + c - 1, b - c + 1),
              Stage(hosts, errors, a + c, b - c));
    }
  }

  /** Every run can be completed, and the failures counted so far stay counted. */
  lemma {:induction false} CanFinish(opts: BatchOpts, hosts: seq<string>, errors: seq<Option<string>>, p: Pool)
    returns (q: Pool)
    requires Sized(hosts, errors, p) && Bounded(opts, p)
    ensures Leads(opts, hosts, errors, p, q) && AllGone(q) && Bounded(opts, q) && q.failures >= p.failures
    decreases Total(Left, p.phases)
  {
    assert Play(opts, hosts, errors, p, []) == p;
    if AllGone(p) {
      return p;
    }
    var i := SomeoneMoves(opts, p);
    MoveBounded(opts, hosts, errors, p, i);
    LeadsStep(opts, hosts, errors, p, p, i);
    var next := Moved(opts, hosts, errors, p, i);
    hide Leads, Bounded, AllGone;
    q := CanFinish(opts, hosts, errors, next);
    LeadsOn(opts, hosts, errors, p, next, q);
  }

  /** With enough hosts, all failing, some complete run has T - 1 + maxConcurrency failures. */
  lemma BoundReached(opts: BatchOpts, hosts: seq<string>, errors: seq<Option<string>>)
    requires |hosts| == |errors| && AllFail(errors) && opts.maxConcurrency > 0
    requires |hosts| >= Threshold(opts) - 1 + opts.maxConcurrency
    ensures exists schedule ::
              var p := Play(opts, hosts, errors, Start(|hosts|), schedule);
              AllGone(p) && p.failures == Threshold(opts) - 1 + opts.maxConcurrency
  {
    var t, m := Threshold(opts), opts.maxConcurrency;
    FailTogether(opts, hosts, errors, t - 1, m, m);
    assert Stage(hosts, errors, 0, 0) == Start(|hosts|);
    var p := Stage(hosts, errors, t - 1 + m, 0);
    var first :| Play(opts, hosts, errors, Start(|hosts|), first) == p;
    PlayKeeps(opts, hosts, errors, first);
    var q := CanFinish(opts, hosts, errors, p);
    LeadsOn(opts, hosts, errors, Start(|hosts|), p, q);
  }

  // ---- Which hosts ran ----

  /** The hosts whose task has run: they failed and were counted, or their slot holds a success. */
  function RanHosts(hosts: seq<string>, errors: seq<Option<string>>, p: Pool): set<nat>
    requires Sized(hosts, errors, p)
  {
    set i: nat | i < |hosts| &&
      (p.phases[i] == Gone(true) || (errors[i].None? && p.results[i] == HostResult(hosts[i], None)))
  }

  function FailedAndGone(phases: seq<Phase>): set<nat> {
    set i: nat | i < |phases| && phases[i] == Gone(true)
  }

  lemma FailedAndGoneMore(phases: seq<Phase>)
    requires phases != []
    ensures var n := |phases| - 1;
            |FailedAndGone(phases)| == |FailedAndGone(phases[..n])| + if phases[n] == Gone(true) then 1 else 0
  {
    var n := |phases| - 1;
    assert n !in FailedAndGone(phases[..n]);
    assert FailedAndGone(phases) == FailedAndGone(phases[..n]) + if phases[n] == Gone(true) then {n} else {};
  }

  lemma {:induction false} FailingSize(phases: seq<Phase>)
    requires forall ph :: ph in phases ==> ph.Gone?
    ensures Total(Failing, phases) == |FailedAndGone(phases)|
  {
    if phases != [] {
      var n := |phases| - 1;
      FailingSize(phases[..n]);
      FailedAndGoneMore(phases);
      assert phases[n].Gone?;
      hide FailedAndGone;
    } else {
      assert FailedAndGone(phases) == {};
    }
  }

  /** The hosts in `ran` have run, the others are marked as stopped, which happens only at the threshold. */
  ghost predicate Ran(opts: BatchOpts, hosts: seq<string>, errors: seq<Option<string>>, ran: set<nat>, failures: nat,
                      results: seq<HostResult>)
    requires |hosts| == |errors|
  {
    && |results| == |hosts|
    && (forall i :: 0 <= i < |hosts| ==>
          && results[i].host == hosts[i]
          && results[i].error == if i in ran then errors[i] else Some("stopped: failure threshold reached"))
    && (forall i :: i in ran ==> i < |hosts|)
    && failures == |set i | i in ran && i < |hosts| && errors[i].Some?|
    && (failures < Threshold(opts) ==> forall i: nat :: i < |hosts| ==> i in ran)
  }

  lemma EndRan(opts: BatchOpts, hosts: seq<string>, errors: seq<Option<string>>, p: Pool)
    requires Sized(hosts, errors, p) && Bounded(opts, p) && Slots(opts, hosts, errors, p) && AllGone(p)
    ensures Ran(opts, hosts, errors, RanHosts(hosts, errors, p), p.failures, p.results)
  {
    var ran := RanHosts(hosts, errors, p);
    forall i | 0 <= i < |hosts|
      ensures p.results[i] == HostResult(hosts[i], if i in ran then errors[i] else STOPPED)
      ensures p.failures < Threshold(opts) ==> i in ran
      ensures i in ran && errors[i].Some? <==> p.phases[i] == Gone(true)
    {
      assert p.phases[i] in p.phases;
      assert Slot(opts, hosts[i], errors[i], p.failures, p.phases[i], p.results[i]);
    }
    FailingSize(p.phases);
    assert (set i | i in ran && i < |hosts| && errors[i].Some?) == FailedAndGone(p.phases);
  }

  // ---- The executor ----

  /** One move of goroutine `i` on the shared variables. */
  method Move(opts: BatchOpts, hosts: seq<string>, errors: seq<Option<string>>, results: array<HostResult>, i: nat,
              phases: seq<Phase>, failures: nat, held: nat)
    returns (phases': seq<Phase>, failures': nat, held': nat)
    requires |hosts| == |errors| == |phases| == results.Length && i < |hosts|
    requires held > 0 || !phases[i].Finished?
    modifies results
    ensures Pool(phases', failures', results[..])
         == Moved(opts, hosts, errors, old(Pool(phases, failures, results[..])), i)
    ensures |phases'| == |phases|
    ensures held' == held + if phases[i].Queued? then 1 else if phases[i].Finished? then -1 else 0
  {
    phases', failures', held' := phases, failures, held;
    match phases[i] {
      case Queued =>
        held' := held + 1;
        phases' := phases[i := Admitted];
      case Admitted =>
        phases' := phases[i := if ShouldStop(opts, failures) then Refused else Working];
      case Refused =>
        results[i] := HostResult(hosts[i], STOPPED);
        phases' := phases[i := Finished(false)];
      case Working =>
        results[i] := HostResult(hosts[i], errors[i]);
        phases' := phases[i := Written(errors[i].Some?)];
      case Written(failed) =>
        if failed {
          failures' := failures + 1;
        }
        phases' := phases[i := Finished(failed)];
      case Finished(failed) =>
        held' := held - 1;
        phases' := phases[i := Gone(failed)];
      case Gone(_) =>
    }
  }

  method RunParallel(opts: BatchOpts, hosts: seq<string>, errors: seq<Option<string>>)
    returns (results: array<HostResult>, failures: nat, ghost ran: set<nat>)
    requires |hosts| == |errors| && opts.maxConcurrency > 0
    ensures Ran(opts, hosts, errors, ran, failures, results[..])
    ensures Complete(opts, hosts, errors, failures, results[..])
    ensures failures <= Threshold(opts) - 1 + opts.maxConcurrency
    ensures failures <= Failures(errors) && (failures < Threshold(opts) ==> failures == Failures(errors))
  {
    hide Slots, Total, Moved;
    var n := |hosts|;
    results := new HostResult[n](_ => EMPTY);
    var phases: seq<Phase> := seq(n, _ => Queued);
    var held := 0;
    failures := 0;
    assert Pool(phases, failures, results[..]) == Start(n);
    StartBounded(opts, hosts, errors);
    while exists i :: 0 <= i < n && !phases[i].Gone?
      invariant results.Length == |phases| == n && held == Holders(phases)
      invariant Bounded(opts, Pool(phases, failures, results[..]))
      invariant Slots(opts, hosts, errors, Pool(phases, failures, results[..]))
      decreases Total(Left, phases)
    {
      ghost var p := Pool(phases, failures, results[..]);
      ghost var someone := SomeoneMoves(opts, p);
      var i: nat :| i < n && !phases[i].Gone? && (phases[i].Queued? ==> held < opts.maxConcurrency);
      MoveBounded(opts, hosts, errors, p, i);
      MoveSlots(opts, hosts, errors, p, i);
      phases, failures, held := Move(opts, hosts, errors, results, i, phases, failures, held);
    }
    EndIsComplete(opts, hosts, errors, Pool(phases, failures, results[..]));
    EndCounts(opts, hosts, errors, Pool(phases, failures, results[..]));
    ran := RanHosts(hosts, errors, Pool(phases, failures, results[..]));
    EndRan(opts, hosts, errors, Pool(phases, failures, results[..]));
  }

  /** Run: the defaults of NewBatchExecutor, then the strategy; anything unknown is serial. */
  method Run(options: BatchOpts, hosts: seq<string>, errors: seq<Option<string>>) returns (results: array<HostResult>)
    requires |hosts| == |errors|
    ensures var opts := NewBatchExecutor(options);
            match opts.strategy
            case Serial => RanFirst(hosts, errors, RollTo(1, Threshold(opts), errors, 0), results[..])
            case Rolling => RanFirst(hosts, errors, RollTo(opts.batchSize, Threshold(opts), errors, 0), results[..])
            case Parallel =>
              exists failures: nat, ran ::
                && Ran(opts, hosts, errors, ran, failures, results[..])
                && failures <= Threshold(opts) - 1 + opts.maxConcurrency && failures <= Failures(errors)
                && (failures < Threshold(opts) ==> failures == Failures(errors))
  {
    var opts := NewBatchExecutor(options);
    match opts.strategy {
      case Parallel =>
        var failures;
        ghost var ran;
        results, failures, ran := RunParallel(opts, hosts, errors);
      case Rolling =>
        results := RunRolling(opts, hosts, errors);
      case Serial =>
        results := RunSerial(opts, hosts, errors);
    }
  }
}
