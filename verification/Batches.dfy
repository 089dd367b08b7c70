/** Running a task on many hosts, one after the other or in rolling batches (api/pkg/sshrunner/batch.go).
    `errors[i]` is what the HostTask returns for host `i` if it is called. */
module Batches {
  import opened Pipelines

  datatype Strategy = Serial | Parallel | Rolling

  datatype BatchOpts = BatchOpts(strategy: Strategy, batchSize: int, maxFailures: int, maxConcurrency: int)

  datatype HostResult = HostResult(host: string, error: Option<string>)

  const STOPPED := Some("stopped: failure threshold reached")

  function NewBatchExecutor(opts: BatchOpts): (r: BatchOpts)
    ensures r.batchSize > 0 && r.maxConcurrency > 0
    ensures opts.batchSize > 0 ==> r.batchSize == opts.batchSize
    ensures opts.maxConcurrency > 0 ==> r.maxConcurrency == opts.maxConcurrency
    ensures opts.batchSize <= 0 ==> r.batchSize == 1
    ensures opts.maxConcurrency <= 0 ==> r.maxConcurrency == 5
    ensures r.strategy == opts.strategy && r.maxFailures == opts.maxFailures
  {
    opts.(batchSize := if opts.batchSize <= 0 then 1 else opts.batchSize,
          maxConcurrency := if opts.maxConcurrency <= 0 then 5 else opts.maxConcurrency)
  }

  predicate ShouldStop(opts: BatchOpts, failures: nat) {
    if opts.maxFailures <= 0 then failures > 0 else failures >= opts.maxFailures
  }

  /** The number of failures at which execution stops. */
  function Threshold(opts: BatchOpts): (t: nat)
    ensures t > 0
    ensures t == if opts.maxFailures > 1 then opts.maxFailures else 1
    ensures forall failures: nat :: ShouldStop(opts, failures) <==> failures >= t
  {
    if opts.maxFailures <= 0 then 1 else opts.maxFailures
  }

  /** Execution stops when more hosts have failed than MaxFailures allows, as the comment on the option has it,
      only for the value 0: a positive one stops it as soon as it is reached, a negative one at the first failure. */
  lemma ExceedingExactly(opts: BatchOpts)
    ensures (forall failures: nat :: ShouldStop(opts, failures) <==> failures > opts.maxFailures)
       <==> opts.maxFailures == 0
  {
    if opts.maxFailures > 0 {
      assert ShouldStop(opts, opts.maxFailures);
    } else if opts.maxFailures < 0 {
      assert !ShouldStop(opts, 0);
    }
  }

  function Failures(errors: seq<Option<string>>): nat {
    if errors == [] then 0
    else Failures(errors[..|errors| - 1]) + if errors[|errors| - 1].Some? then 1 else 0
  }

  lemma {:induction false} FailuresSplit(errors: seq<Option<string>>, k: nat)
    requires k <= |errors|
    ensures Failures(errors[..k]) <= Failures(errors) <= Failures(errors[..k]) + |errors| - k
  {
    if k < |errors| {
      var n := |errors| - 1;
      FailuresSplit(errors[..n], k);
      assert errors[..n][..k] == errors[..k];
    } else {
      assert errors[..k] == errors;
    }
  }

  /** The first `k` hosts have run, the others are marked as stopped. */
  predicate RanFirst(hosts: seq<string>, errors: seq<Option<string>>, k: nat, results: seq<HostResult>)
    requires |hosts| == |errors| && k <= |hosts|
  {
    && |results| == |hosts|
    && forall i :: 0 <= i < |hosts| ==>
         results[i] == HostResult(hosts[i], if i < k then errors[i] else Some("stopped: failure threshold reached"))
  }

  /** Where rolling execution stops when it goes on at `i`: after the first batch that reaches the threshold. */
  function RollTo(size: nat, t: nat, errors: seq<Option<string>>, i: nat): (k: nat)
    requires size > 0 && i <= |errors|
    ensures i <= k <= |errors|
    decreases |errors| - i
  {
    if i == |errors| then i
    else
      var end := if i + size > |errors| then |errors| else i + size;
      if Failures(errors[..end]) >= t then end else RollTo(size, t, errors, end)
  }

  // ---- The executors ----

  method RunSerial(opts: BatchOpts, hosts: seq<string>, errors: seq<Option<string>>)
    returns (results: array<HostResult>)
    requires |hosts| == |errors|
    ensures RanFirst(hosts, errors, RollTo(1, Threshold(opts), errors, 0), results[..])
  {
    results := new HostResult[|hosts|](_ => HostResult("", None));
    var failures := 0;
    ghost var t := Threshold(opts);
    ghost var k := RollTo(1, t, errors, 0);
    for i := 0 to |hosts|
      invariant results.Length == |hosts|
      invariant forall j :: 0 <= j < i ==> results[j] == HostResult(hosts[j], if j < k then errors[j] else STOPPED)
      invariant failures < t ==> failures == Failures(errors[..i]) && k == RollTo(1, t, errors, i)
      invariant failures >= t ==> k <= i
    {
      if ShouldStop(opts, failures) {
        results[i] := HostResult(hosts[i], STOPPED);
      } else {
        assert errors[..i + 1][..i] == errors[..i];
        results[i] := HostResult(hosts[i], errors[i]);
        if errors[i].Some? {
          failures := failures + 1;
        }
      }
    }
  }

  function FailSet(errors: seq<Option<string>>, lo: nat, hi: nat): set<nat>
    requires hi <= |errors|
  {
    set j: nat | lo <= j < hi && errors[j].Some?
  }

  lemma {:induction false} FailSetCounts(errors: seq<Option<string>>, lo: nat, hi: nat)
    requires lo <= hi <= |errors|
    ensures Failures(errors[..hi]) == Failures(errors[..lo]) + |FailSet(errors, lo, hi)|
  {
    if lo < hi {
      FailSetCounts(errors, lo, hi - 1);
      assert errors[..hi][..hi - 1] == errors[..hi - 1];
      if errors[hi - 1].Some? {
        assert FailSet(errors, lo, hi) == FailSet(errors, lo, hi - 1) + {hi - 1};
      } else {
        assert FailSet(errors, lo, hi) == FailSet(errors, lo, hi - 1);
      }
    } else {
      assert FailSet(errors, lo, hi) == {};
    }
  }

  function Range(lo: nat, hi: nat): (r: set<nat>)
    ensures forall j :: j in r <==> lo <= j < hi
    decreases hi - lo
  {
    if lo >= hi then {} else {lo} + Range(lo + 1, hi)
  }

  /** The failures of a batch that have been counted while `todo` is still at work. */
  ghost function Counted(errors: seq<Option<string>>, lo: nat, hi: nat, todo: set<nat>): nat
    requires hi <= |errors|
  {
    |FailSet(errors, lo, hi) - todo|
  }

  lemma NoneLeft(errors: seq<Option<string>>, lo: nat, hi: nat)
    requires hi <= |errors|
    ensures Counted(errors, lo, hi, Range(lo, hi)) == 0
    ensures Counted(errors, lo, hi, {}) == |FailSet(errors, lo, hi)|
  {
    assert FailSet(errors, lo, hi) - Range(lo, hi) == {};
    assert FailSet(errors, lo, hi) - {} == FailSet(errors, lo, hi);
  }

  lemma CountOne(errors: seq<Option<string>>, lo: nat, hi: nat, todo: set<nat>, j: nat)
    requires lo <= j < hi <= |errors| && j in todo
    ensures Counted(errors, lo, hi, todo - {j}) == Counted(errors, lo, hi, todo) + if errors[j].Some? then 1 else 0
  {
    var fails := FailSet(errors, lo, hi);
    if errors[j].Some? {
      assert fails - (todo - {j}) == fails - todo + {j};
    } else {
      assert fails - (todo - {j}) == fails - todo;
    }
  }

  /** One batch: a goroutine for each host writes its result, then counts its failure; any of them may move next. */
  method RunBatch(hosts: seq<string>, errors: seq<Option<string>>, results: array<HostResult>, lo: nat, hi: nat,
                  before: nat)
    returns (failures: nat)
    requires |hosts| == |errors| == results.Length && lo <= hi <= |hosts| && before == Failures(errors[..lo])
    modifies results
    ensures failures == Failures(errors[..hi])
    ensures forall j :: lo <= j < hi ==> results[j] == HostResult(hosts[j], errors[j])
    ensures forall j :: 0 <= j < results.Length && !(lo <= j < hi) ==> results[j] == old(results[j])
  {
    failures := before;
    var all := Range(lo, hi);
    var todo, written := all, {};
    hide Failures, FailSet, Counted;
    NoneLeft(errors, lo, hi);
    FailSetCounts(errors, lo, hi);
    while todo != {}
      invariant todo <= all && written <= all && all - todo <= written
      invariant forall j :: j in written ==> results[j] == HostResult(hosts[j], errors[j])
      invariant forall j :: 0 <= j < results.Length && !(lo <= j < hi) ==> results[j] == old(results[j])
      invariant failures == before + Counted(errors, lo, hi, todo)
      decreases todo, all - written
    {
      var j :| j in todo;
      if j !in written {
        results[j] := HostResult(hosts[j], errors[j]);
        written := written + {j};
      } else {
        CountOne(errors, lo, hi, todo, j);
        if errors[j].Some? {
          failures := failures + 1;
        }
        todo := todo - {j};
      }
    }
  }

  lemma RollStep(size: nat, t: nat, errors: seq<Option<string>>, i: nat)
    requires size > 0 && i < |errors|
    ensures var end := if i + size > |errors| then |errors| else i + size;
            RollTo(size, t, errors, i) == if Failures(errors[..end]) >= t then end else RollTo(size, t, errors, end)
    ensures RollTo(size, t, errors, |errors|) == |errors|
  {
  }

  method MarkStopped(hosts: seq<string>, results: array<HostResult>, idx: nat)
    requires |hosts| == results.Length && idx <= |hosts|
    modifies results
    ensures forall j :: 0 <= j < idx ==> results[j] == old(results[j])
    ensures forall j :: idx <= j < results.Length ==> results[j] == HostResult(hosts[j], STOPPED)
  {
    for i := idx to |hosts|
      invariant forall j :: 0 <= j < idx ==> results[j] == old(results[j])
      invariant forall j :: idx <= j < i ==> results[j] == HostResult(hosts[j], STOPPED)
    {
      results[i] := HostResult(hosts[i], STOPPED);
    }
  }

  method RunRolling(opts: BatchOpts, hosts: seq<string>, errors: seq<Option<string>>)
    returns (results: array<HostResult>)
    requires |hosts| == |errors| && opts.batchSize > 0
    ensures RanFirst(hosts, errors, RollTo(opts.batchSize, Threshold(opts), errors, 0), results[..])
  {
    results := new HostResult[|hosts|](_ => HostResult("", None));
    var failures := 0;
    var idx := 0;
    ghost var k := RollTo(opts.batchSize, Threshold(opts), errors, 0);
    assert errors[..0] == [] && Failures([]) == 0;
    hide Failures, RollTo;
    while idx < |hosts|
      invariant results.Length == |hosts| && idx <= |hosts| && k == RollTo(opts.batchSize, Threshold(opts), errors, idx)
      invariant forall j :: 0 <= j < idx ==> results[j] == HostResult(hosts[j], errors[j])
      invariant failures == Failures(errors[..idx])
    {
      RollStep(opts.batchSize, Threshold(opts), errors, idx);
      var batchEnd := idx + opts.batchSize;
      if batchEnd > |hosts| {
        batchEnd := |hosts|;
      }
      failures := RunBatch(hosts, errors, results, idx, batchEnd, failures);
      idx := batchEnd;
      if ShouldStop(opts, failures) {
        MarkStopped(hosts, results, idx);
        break;
      }
    }
  }

  // ---- What the strategies promise ----

  /** Rolling stops with at most one batch more failures than the threshold allows; it stops early only once
      the threshold is reached, and every earlier batch began below it. */
  lemma {:induction false} RollBound(size: nat, t: nat, errors: seq<Option<string>>, i: nat)
    requires size > 0 && t > 0 && i <= |errors| && Failures(errors[..i]) < t
    ensures var k := RollTo(size, t, errors, i);
            && Failures(errors[..k]) <= t - 1 + size
            && (k < |errors| ==> Failures(errors[..k]) >= t)
    decreases |errors| - i
  {
    if i < |errors| {
      var end := if i + size > |errors| then |errors| else i + size;
      FailuresSplit(errors[..end], i);
      assert errors[..end][..i] == errors[..i];
      if Failures(errors[..end]) < t {
        RollBound(size, t, errors, end);
      }
    }
  }

  /** Rolling stops after a whole number of batches, or at the end. */
  lemma {:induction false} RollAligned(size: nat, t: nat, errors: seq<Option<string>>, i: nat) returns (m: nat)
    requires size > 0 && i <= |errors|
    ensures RollTo(size, t, errors, i) == |errors| || RollTo(size, t, errors, i) == i + m * size
    decreases |errors| - i
  {
    m := 0;
    if i + size < |errors| {
      m := 1;
      if Failures(errors[..i + size]) < t {
        var n := RollAligned(size, t, errors, i + size);
        m := n + 1;
      }
    }
  }

  lemma {:induction false} SerialLeast(t: nat, errors: seq<Option<string>>, i: nat, j: nat)
    requires t > 0 && i <= j <= |errors| && Failures(errors[..j]) < t
    ensures RollTo(1, t, errors, i) == RollTo(1, t, errors, j)
    decreases j - i
  {
    if i < j {
      FailuresSplit(errors[..j], i + 1);
      assert errors[..j][..i + 1] == errors[..i + 1];
      SerialLeast(t, errors, i + 1, j);
    }
  }

  /** Rolling runs every host that serial execution runs, and fewer than one batch more. */
  lemma {:induction false} RollOvershoot(size: nat, t: nat, errors: seq<Option<string>>, i: nat)
    requires size > 0 && t > 0 && i <= |errors| && Failures(errors[..i]) < t
    ensures RollTo(1, t, errors, i) <= RollTo(size, t, errors, i) < RollTo(1, t, errors, i) + size
    decreases |errors| - i
  {
    if i < |errors| {
      var end := if i + size > |errors| then |errors| else i + size;
      if Failures(errors[..end]) < t {
        SerialLeast(t, errors, i, end);
        RollOvershoot(size, t, errors, end);
      } else {
        SerialBefore(t, errors, i, end);
      }
    }
  }

  lemma {:induction false} SerialBefore(t: nat, errors: seq<Option<string>>, i: nat, j: nat)
    requires t > 0 && i < j <= |errors| && Failures(errors[..j]) >= t
    ensures i < RollTo(1, t, errors, i) <= j
    decreases j - i
  {
    if Failures(errors[..i + 1]) < t {
      SerialBefore(t, errors, i + 1, j);
    }
  }
}
