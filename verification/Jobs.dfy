/**
  The background job queue: one worker, oldest pending job first, automatic and manual retries.
  The jobs table is a sequence of rows with unique ids and creation times; what a job's
  execution returns is decided by an oracle. The worker selects, starts and records in separate
  sessions, and request handlers may create and retry jobs between any two of them.
 */
module Jobs {
  import opened Wrappers

  datatype Status = Pending | Running | Completed | Failed

  datatype Job = Job(id: nat, tenant: string, created: int, status: Status, retryCount: int, maxRetries: int,
                     lastError: Option<string>)

  function Max(a: int, b: int): int {
    if a >= b then a else b
  }

  /** How many executions a fresh job gets before it fails for good. */
  function Attempts(j: Job): int {
    Max(1, j.maxRetries)
  }

  // ---------------------------------------------------------------------------
  // One job
  // ---------------------------------------------------------------------------

  function Start(j: Job): Job {
    j.(status := Running)
  }

  function Succeed(j: Job): Job {
    j.(status := Completed, lastError := None)
  }

  function Fail(j: Job, error: string): Job {
    var count := j.retryCount + 1;
    j.(retryCount := count, lastError := Some(error), status := if count >= j.maxRetries then Failed else Pending)
  }

  function Requeue(j: Job): Job {
    j.(status := Pending, retryCount := 0, lastError := None)
  }

  /** A failed job has used up its attempts; any other has some left. */
  predicate WithinBudget(j: Job) {
    if j.status.Failed? then j.retryCount == Attempts(j) else 0 <= j.retryCount < Attempts(j)
  }

  // ---------------------------------------------------------------------------
  // Runs
  // ---------------------------------------------------------------------------

  /** Where the one worker is: about to look for a job, holding the id it found, or executing. */
  datatype Worker = Idle | Selected(row: nat) | Executing(row: nat)

  datatype State = State(jobs: seq<Job>, worker: Worker)

  /** Creations and retries come from request handlers at any time; the worker selects, starts and records. */
  datatype Event =
    | Create(job: Job)
    | Retry(row: nat)
    | Select(row: nat)
    | Begin
    | Record(outcome: Result<string>)

  const EMPTY := State([], Idle)

  predicate IsPending(jobs: seq<Job>, k: nat) {
    k < |jobs| && jobs[k].status.Pending?
  }

  /** What the query for the next job may return: pending, and created before every other pending row. */
  predicate Oldest(jobs: seq<Job>, k: nat) {
    IsPending(jobs, k) && forall i | 0 <= i < |jobs| && jobs[i].status.Pending? :: jobs[k].created <= jobs[i].created
  }

  predicate Fresh(jobs: seq<Job>, job: Job) {
    && job.status.Pending? && job.retryCount == 0
    && forall i | 0 <= i < |jobs| :: jobs[i].id != job.id && jobs[i].created < job.created
  }

  predicate Enabled(s: State, e: Event) {
    match e
    case Create(job) => Fresh(s.jobs, job)
    case Retry(k) => k < |s.jobs| && s.jobs[k].status.Failed?
    case Select(k) => s.worker.Idle? && Oldest(s.jobs, k)
    case Begin => s.worker.Selected? && s.worker.row < |s.jobs|
    case Record(_) => s.worker.Executing? && s.worker.row < |s.jobs|
  }

  /** Starting checks that the row is still pending, and nothing else about the queue. */
  function Next(s: State, e: Event): State
    requires Enabled(s, e)
  {
    match e
    case Create(job) => s.(jobs := s.jobs + [job])
    case Retry(k) => s.(jobs := s.jobs[k := Requeue(s.jobs[k])])
    case Select(k) => s.(worker := Selected(k))
    case Begin =>
      var k := s.worker.row;
      if s.jobs[k].status.Pending? then State(s.jobs[k := Start(s.jobs[k])], Executing(k)) else s.(worker := Idle)
    case Record(outcome) => State(s.jobs[s.worker.row := Recorded(s.jobs[s.worker.row], outcome)], Idle)
  }

  function Recorded(j: Job, outcome: Result<string>): Job {
    match outcome
    case Ok(_) => Succeed(j)
    case Err(error) => Fail(j, error)
  }

  predicate Possible(s: State, run: seq<Event>)
    decreases |run|
  {
    run == [] || (Enabled(s, run[0]) && Possible(Next(s, run[0]), run[1..]))
  }

  function After(s: State, run: seq<Event>): State
    requires Possible(s, run)
    decreases |run|
  {
    if run == [] then s else After(Next(s, run[0]), run[1..])
  }

  predicate AllWithinBudget(jobs: seq<Job>) {
    forall i | 0 <= i < |jobs| :: WithinBudget(jobs[i])
  }

  predicate InCreationOrder(jobs: seq<Job>) {
    forall i, j | 0 <= i < j < |jobs| :: jobs[i].created < jobs[j].created && jobs[i].id != jobs[j].id
  }

  /** Exactly the row the worker executes is running; a row it holds is still pending. */
  predicate WorkerAgrees(s: State) {
    && (forall i | 0 <= i < |s.jobs| :: s.jobs[i].status.Running? <==> s.worker == Executing(i))
    && (s.worker.Executing? ==> s.worker.row < |s.jobs|)
    && (s.worker.Selected? ==> IsPending(s.jobs, s.worker.row))
  }

  predicate Inv(s: State) {
    AllWithinBudget(s.jobs) && InCreationOrder(s.jobs) && WorkerAgrees(s)
  }

  lemma {:induction false} StepKeepsInv(s: State, e: Event)
    requires Inv(s) && Enabled(s, e)
    ensures Inv(Next(s, e))
  {
  }

  lemma {:induction false} RunKeepsInv(s: State, run: seq<Event>)
    requires Inv(s) && Possible(s, run)
    ensures Inv(After(s, run))
    decreases |run|
  {
    if run != [] {
      StepKeepsInv(s, run[0]);
      RunKeepsInv(Next(s, run[0]), run[1..]);
    }
  }

  /**
    Every run from an empty queue: retry counts stay in budget for any integer max_retries, and exactly the row
    the worker executes is running, so never two.
   */
  lemma {:induction false} EveryRunStaysInBudget(run: seq<Event>)
    requires Possible(EMPTY, run)
    ensures Inv(After(EMPTY, run))
    ensures forall i, j | 0 <= i < |After(EMPTY, run).jobs| && 0 <= j < |After(EMPTY, run).jobs| ::
              After(EMPTY, run).jobs[i].status.Running? && After(EMPTY, run).jobs[j].status.Running? ==> i == j
  {
    RunKeepsInv(EMPTY, run);
  }

  // ---------------------------------------------------------------------------
  // The order in which jobs are started
  // ---------------------------------------------------------------------------

  predicate Done(j: Job) {
    j.status.Completed? || j.status.Failed?
  }

  /** When a row is selected, every older one is completed or failed. */
  lemma {:induction false} OlderDoneAtSelection(s: State, k: nat, i: nat)
    requires Inv(s) && Enabled(s, Select(k)) && i < k
    ensures Done(s.jobs[i])
  {
    assert s.jobs[i].created < s.jobs[k].created;
  }

  /** What request handlers do while the worker holds the id it selected. */
  predicate Outside(since: seq<Event>) {
    forall j | 0 <= j < |since| :: since[j].Create? || since[j].Retry?
  }

  lemma {:induction false} DoneUnlessRetried(s: State, since: seq<Event>, i: nat)
    requires Possible(s, since) && Outside(since) && i < |s.jobs| && (Done(s.jobs[i]) || s.jobs[i].status.Pending?)
    ensures var after := After(s, since);
            && after.worker == s.worker && |s.jobs| <= |after.jobs|
            && (if Retry(i) in since || s.jobs[i].status.Pending? then after.jobs[i].status.Pending?
                else Done(after.jobs[i]))
    decreases |since|
  {
    if since != [] {
      assert since == [since[0]] + since[1..];
      DoneUnlessRetried(Next(s, since[0]), since[1..], i);
    }
  }

  /**
    Selection and start are two sessions. When the worker starts the row it selected, an older job is completed or
    failed if and only if it was not requeued since the selection; otherwise it is pending and is overtaken.
   */
  lemma {:induction false} OlderDoneAtStartExactly(run: seq<Event>, k: nat, since: seq<Event>, i: nat)
    requires Possible(EMPTY, run) && Enabled(After(EMPTY, run), Select(k)) && i < k
    requires Possible(Next(After(EMPTY, run), Select(k)), since) && Outside(since)
    ensures var start := After(Next(After(EMPTY, run), Select(k)), since);
            && Enabled(start, Begin) && Next(start, Begin).worker == Executing(k) && i < |start.jobs|
            && start.jobs[i].created < start.jobs[k].created
            && (Done(start.jobs[i]) <==> Retry(i) !in since)
            && (start.jobs[i].status.Pending? <==> Retry(i) in since)
  {
    var s := After(EMPTY, run);
    RunKeepsInv(EMPTY, run);
    OlderDoneAtSelection(s, k, i);
    StepKeepsInv(s, Select(k));
    RunKeepsInv(Next(s, Select(k)), since);
    DoneUnlessRetried(Next(s, Select(k)), since, i);
  }

  /** The overtaking run: the older job fails for good, the newer is selected, the older is retried, the newer starts. */
  lemma {:induction false} RetryIsOvertaken() returns (run: seq<Event>)
    ensures Possible(EMPTY, run)
    ensures After(EMPTY, run).worker == Executing(1) && IsPending(After(EMPTY, run).jobs, 0)
    ensures |After(EMPTY, run).jobs| == 2 && After(EMPTY, run).jobs[0].created < After(EMPTY, run).jobs[1].created
  {
    var a, b := Job(0, "t", 0, Pending, 0, 1, None), Job(1, "t", 1, Pending, 0, 1, None);
    var e0, e1, e4 := Create(a), Create(b), Record(Err("boom"));
    var s1 := Next(EMPTY, e0);
    var s2 := Next(s1, e1);
    assert s2 == State([a, b], Idle);
    var s3 := Next(s2, Select(0));
    var s4 := Next(s3, Begin);
    assert s4 == State([Start(a), b], Executing(0));
    var s5 := Next(s4, e4);
    assert s5 == State([Fail(Start(a), "boom"), b], Idle);
    var s6 := Next(s5, Select(1));
    var s7 := Next(s6, Retry(0));
    assert s7 == State([Requeue(Fail(Start(a), "boom")), b], Selected(1));
    run := [Begin];              RunFrom(s7, Begin, []);
    RunFrom(s6, Retry(0), run);  run := [Retry(0)] + run;
    RunFrom(s5, Select(1), run); run := [Select(1)] + run;
    RunFrom(s4, e4, run);        run := [e4] + run;
    RunFrom(s3, Begin, run);     run := [Begin] + run;
    RunFrom(s2, Select(0), run); run := [Select(0)] + run;
    RunFrom(s1, e1, run);        run := [e1] + run;
    RunFrom(EMPTY, e0, run);     run := [e0] + run;
    assert After(EMPTY, run) == Next(s7, Begin);
  }

  lemma {:induction false} RunFrom(s: State, e: Event, rest: seq<Event>)
    requires Enabled(s, e) && Possible(Next(s, e), rest)
    ensures Possible(s, [e] + rest) && After(s, [e] + rest) == After(Next(s, e), rest)
  {
    assert ([e] + rest)[1..] == rest;
  }

  // ---------------------------------------------------------------------------
  // The worker empties the queue
  // ---------------------------------------------------------------------------

  /** The executions the pending jobs may still take. */
  function Remaining(jobs: seq<Job>): (n: int)
    ensures AllWithinBudget(jobs) ==> n >= 0
  {
    if jobs == [] then 0
    else Remaining(jobs[1..]) + if jobs[0].status.Pending? then Attempts(jobs[0]) - jobs[0].retryCount else 0
  }

  lemma {:induction false} RemainingAfterUpdate(jobs: seq<Job>, k: nat, j: Job)
    requires k < |jobs|
    ensures Remaining(jobs[k := j]) == Remaining(jobs)
              + (if j.status.Pending? then Attempts(j) - j.retryCount else 0)
              - (if jobs[k].status.Pending? then Attempts(jobs[k]) - jobs[k].retryCount else 0)
  {
    if k > 0 {
      RemainingAfterUpdate(jobs[1..], k - 1, j);
      assert jobs[k := j][1..] == jobs[1..][k - 1 := j];
    }
  }

  lemma {:induction false} NothingRemains(jobs: seq<Job>)
    requires forall i | 0 <= i < |jobs| :: !jobs[i].status.Pending?
    ensures Remaining(jobs) == 0
  {
    if jobs != [] { NothingRemains(jobs[1..]); }
  }

  /** From a point on, rows were started in table order. */
  predicate Rising(started: seq<nat>, from: nat) {
    forall i, j | from <= i < j < |started| :: started[i] <= started[j]
  }

  /** No pending row is older than one started since. */
  predicate Behind(jobs: seq<Job>, started: seq<nat>, from: nat) {
    forall i, k | from <= i < |started| && 0 <= k < |jobs| && jobs[k].status.Pending? :: started[i] <= k
  }

  lemma {:induction false} OldestFirst(jobs: seq<Job>, row: nat, j: Job, started: seq<nat>, from: nat)
    requires InCreationOrder(jobs) && Oldest(jobs, row) && Rising(started, from) && Behind(jobs, started, from)
    ensures Rising(started + [row], from) && Behind(jobs[row := j], started + [row], from)
  {
    forall k | 0 <= k < |jobs| && jobs[k].status.Pending? ensures row <= k {
      assert jobs[row].created <= jobs[k].created;
    }
  }

  /** Only this row changes, and of it only the status, the retry count and the last error. */
  predicate OnlyRow(before: seq<Job>, after: seq<Job>, k: nat) {
    && |after| == |before| && k < |before|
    && after[k].(status := before[k].status, retryCount := before[k].retryCount, lastError := before[k].lastError) == before[k]
    && forall i | 0 <= i < |before| && i != k :: after[i] == before[i]
  }

  /** The row after n executions that all fail. */
  function AfterFailures(j: Job, n: nat): Job {
    if n == 0 then j else Processed(AfterFailures(j, n - 1), Err("error"))
  }

  /** A pending job in budget that keeps failing is pending until its attempts are used up, and then failed. */
  lemma {:induction false} FailsAtLast(j: Job, n: nat)
    requires WithinBudget(j) && j.status.Pending? && n <= Attempts(j) - j.retryCount
    ensures var after := AfterFailures(j, n);
            && after.retryCount == j.retryCount + n && after.maxRetries == j.maxRetries
            && after.status == if n == Attempts(j) - j.retryCount then Failed else Pending
  {
    if n > 0 { FailsAtLast(j, n - 1); }
  }

  /** A retried job gets all its attempts again: it takes as many failures as a fresh one to fail. */
  lemma {:induction false} RetryRestoresAttempts(s: State, k: nat, n: nat)
    requires Inv(s) && Enabled(s, Retry(k)) && n <= Attempts(s.jobs[k])
    ensures var after := Next(s, Retry(k)).jobs;
            && OnlyRow(s.jobs, after, k) && after[k].status.Pending? && after[k].lastError.None?
            && AfterFailures(after[k], n).status == (if n == Max(1, s.jobs[k].maxRetries) then Failed else Pending)
            && Remaining(after) == Remaining(s.jobs) + Max(1, s.jobs[k].maxRetries)
  {
    var j := Next(s, Retry(k)).jobs[k];
    assert WithinBudget(j);
    FailsAtLast(j, n);
    RemainingAfterUpdate(s.jobs, k, j);
  }

  /** What one execution leaves: the row as started, then succeeded or failed. */
  function Processed(j: Job, outcome: Result<string>): Job {
    Recorded(Start(j), outcome)
  }

  /** An execution of a pending job uses one of the attempts left, or all of them if it succeeds. */
  lemma {:induction false} ExecutionUsesOne(jobs: seq<Job>, k: nat, outcome: Result<string>)
    requires AllWithinBudget(jobs) && IsPending(jobs, k)
    ensures Remaining(jobs[k := Processed(jobs[k], outcome)]) < Remaining(jobs)
    ensures outcome.Err? ==> Remaining(jobs[k := Processed(jobs[k], outcome)]) == Remaining(jobs) - 1
  {
    RemainingAfterUpdate(jobs, k, Processed(jobs[k], outcome));
  }

  class JobService {
    var jobs: seq<Job>
    var shutdown: bool
    var wakeup: bool
    /** Where the worker is in its loop. */
    ghost var worker: Worker
    /** The rows started so far, in order. */
    ghost var started: seq<nat>

    ghost function Value(): State
      reads this
    {
      State(jobs, worker)
    }

    ghost predicate Valid()
      reads this
    {
      Inv(Value())
    }

    constructor ()
      ensures Valid() && Value() == EMPTY && !shutdown && started == []
    {
      jobs, shutdown, wakeup, started, worker := [], false, false, [], Idle;
    }

    method CreateJob(id: nat, tenant: string, now: int, maxRetries: int)
      requires Valid()
      requires forall i | 0 <= i < |jobs| :: jobs[i].id != id && jobs[i].created < now
      modifies this`jobs, this`wakeup
      ensures Valid() && wakeup
      ensures Value() == Next(old(Value()), Create(Job(id, tenant, now, Pending, 0, maxRetries, None)))
    {
      StepKeepsInv(Value(), Create(Job(id, tenant, now, Pending, 0, maxRetries, None)));
      jobs := jobs + [Job(id, tenant, now, Pending, 0, maxRetries, None)];
      wakeup := true;
    }

    /** Reset a failed job of this tenant to pending; anything else is left alone and returns None. */
    method RetryJob(row: nat, tenant: string) returns (r: Option<Job>)
      requires Valid()
      modifies this`jobs, this`wakeup
      ensures Valid()
      ensures r.Some? <==> row < |old(jobs)| && old(jobs)[row].tenant == tenant && old(jobs)[row].status.Failed?
      ensures r.Some? ==> Value() == Next(old(Value()), Retry(row)) && r.value == jobs[row] && wakeup
      ensures r.Some? ==> OnlyRow(old(jobs), jobs, row) && r.value.status.Pending? && r.value.retryCount == 0
                          && r.value.lastError.None?
      ensures r.None? ==> jobs == old(jobs) && wakeup == old(wakeup)
    {
      if row >= |jobs| || jobs[row].tenant != tenant || !jobs[row].status.Failed? {
        return None;
      }
      StepKeepsInv(Value(), Retry(row));
      jobs := jobs[row := Requeue(jobs[row])];
      wakeup := true;
      r := Some(jobs[row]);
    }

    /** The oldest pending row, if any. */
    method NextPending() returns (r: Option<nat>)
      ensures r.None? <==> forall i | 0 <= i < |jobs| :: !jobs[i].status.Pending?
      ensures r.Some? ==> Oldest(jobs, r.value)
    {
      r := None;
      for i := 0 to |jobs|
        invariant r.None? <==> forall j | 0 <= j < i :: !jobs[j].status.Pending?
        invariant r.Some? ==> r.value < i && IsPending(jobs, r.value)
                              && forall j | 0 <= j < i && jobs[j].status.Pending? :: jobs[r.value].created <= jobs[j].created
      {
        if jobs[i].status.Pending? && (r.None? || jobs[i].created < jobs[r.value].created) {
          r := Some(i);
        }
      }
    }

    /** The first session of processing: the row must still be there and pending. */
    method StartJob(row: nat) returns (ok: bool)
      requires Valid() && !worker.Executing?
      modifies this`jobs, this`worker, this`started
      ensures Valid() && ok == IsPending(old(jobs), row)
      ensures ok ==> jobs == old(jobs)[row := Start(old(jobs)[row])] && started == old(started) + [row]
                     && worker == Executing(row)
      ensures !ok ==> jobs == old(jobs) && started == old(started) && worker == Idle
    {
      if row >= |jobs| || !jobs[row].status.Pending? {
        worker := Idle;
        return false;
      }
      jobs := jobs[row := Start(jobs[row])];
      worker, started := Executing(row), started + [row];
      ok := true;
    }

    /** The second session: record how the execution ended. */
    method RecordOutcome(row: nat, outcome: Result<string>)
      requires Valid() && worker == Executing(row)
      modifies this`jobs, this`worker, this`wakeup
      ensures Valid() && Value() == Next(old(Value()), Record(outcome))
      ensures OnlyRow(old(jobs), jobs, row)
      ensures outcome.Ok? ==> jobs[row].status.Completed? && jobs[row].lastError.None?
                              && jobs[row].retryCount == old(jobs)[row].retryCount
      ensures outcome.Err? ==> jobs[row].retryCount == old(jobs)[row].retryCount + 1
                               && jobs[row].lastError == Some(outcome.error)
                               && jobs[row].status == if jobs[row].retryCount == Attempts(jobs[row]) then Failed else Pending
    {
      StepKeepsInv(Value(), Record(outcome));
      match outcome {
        case Ok(_) =>
          jobs := jobs[row := Succeed(jobs[row])];
        case Err(error) =>
          jobs := jobs[row := Fail(jobs[row], error)];
          if jobs[row].status.Pending? {
            wakeup := true;
          }
      }
      worker := Idle;
    }

    /** Both sessions with nothing in between; any row may be asked for while the worker is not executing. */
    method ProcessJob(row: nat, outcome: Result<string>)
      requires Valid() && !worker.Executing?
      modifies this`jobs, this`worker, this`wakeup, this`started
      ensures Valid() && worker == Idle
      ensures if IsPending(old(jobs), row)
              then jobs == old(jobs)[row := Processed(old(jobs)[row], outcome)] && started == old(started) + [row]
              else jobs == old(jobs) && started == old(started)
    {
      var ok := StartJob(row);
      if ok {
        RecordOutcome(row, outcome);
      }
    }

    /**
      The worker loop until the queue is empty, with no arrivals and no manual retries. It ends, within the
      executions the pending jobs have left (exactly those, when every execution fails), and no row is
      started while an older one is pending.
     */
    method Drain(execute: (Job, nat) -> Result<string>) returns (executions: nat)
      requires Valid() && !shutdown && worker == Idle
      modifies this`jobs, this`worker, this`wakeup, this`started
      ensures Valid() && |jobs| == |old(jobs)|
      ensures forall i | 0 <= i < |jobs| :: Done(jobs[i])
      ensures executions <= Remaining(old(jobs))
      ensures (forall j, n :: execute(j, n).Err?) ==> executions == Remaining(old(jobs))
      ensures executions == |started| - |old(started)| && old(started) <= started
      ensures Rising(started, |old(started)|)
    {
      executions := 0;
      ghost var from := |started|;
      var next := NextPending();
      while next.Some?
        invariant Valid() && worker == Idle && |jobs| == |old(jobs)|
        invariant next.None? <==> forall i | 0 <= i < |jobs| :: !jobs[i].status.Pending?
        invariant next.Some? ==> Oldest(jobs, next.value)
        invariant executions + Remaining(jobs) <= Remaining(old(jobs))
        invariant (forall j, n :: execute(j, n).Err?) ==> executions + Remaining(jobs) == Remaining(old(jobs))
        invariant executions == |started| - |old(started)| && old(started) <= started
        invariant Rising(started, from) && Behind(jobs, started, from)
        decreases Remaining(jobs)
      {
        var row := next.value;
        var outcome := execute(jobs[row], executions);
        ghost var before, startedBefore := jobs, started;
        ProcessJob(row, outcome);
        ExecutionUsesOne(before, row, outcome);
        OldestFirst(before, row, Processed(before[row], outcome), startedBefore, from);
        executions := executions + 1;
        next := NextPending();
      }
      NothingRemains(jobs);
    }

    method Stop()
      modifies this`shutdown, this`wakeup
      ensures shutdown && wakeup
    {
      shutdown, wakeup := true, true;
    }
  }
}
