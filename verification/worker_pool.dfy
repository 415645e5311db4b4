/** The worker pool as a system of concurrent steps: jobs, two channels, two wait groups, the collector of
    errors and the one call that drains it all. */
module WorkerPool {
  import opened Wrappers

  /** A job from the call of Add to the end of its goroutine. */
  datatype Job =
    | Acquiring                               // Add is sending its token
    | Acquired                                // Add has its token and is about to count the job
    | Running
    | Sending(error: string)                  // the job failed and its error is being sent
    | Releasing(result: Option<string>)       // about to take its token back out
    | Leaving(result: Option<string>)         // about to be counted as done
    | Finished(result: Option<string>)

  datatype Collector = Receiving | Holding(error: string) | Exiting | Gone

  datatype Drain = Idle | WaitingJobs | ClosingTokens | ClosingErrors | WaitingCollector | Returned

  datatype Pool = Pool(size: nat, jobs: seq<Job>, tokens: nat, tokensClosed: bool, pending: int,
                       buffer: seq<string>, errorsClosed: bool, collector: Collector, errs: seq<string>, drain: Drain)

  const ERROR_CAPACITY: nat := 1

  function NewPool(size: nat): Pool { Pool(size, [], 0, false, 0, [], false, Receiving, [], Idle) }

  datatype Step =
    | CallAdd | Acquire(i: nat) | Register(i: nat) | Return(i: nat, result: Option<string>) | Send(i: nat)
    | Release(i: nat) | Done(i: nat)
    | Receive | Append | SeeClosed | CollectorDone
    | CallDrain | JobsDone | CloseTokens | CloseErrors | DrainReturns

  ghost predicate AddInProgress(p: Pool) {
    exists i :: 0 <= i < |p.jobs| && (p.jobs[i].Acquiring? || p.jobs[i].Acquired?)
  }

  /** When a step can be taken. A caller never adds to a pool that it has begun to drain. */
  ghost predicate Enabled(p: Pool, s: Step) {
    match s
    case CallAdd => p.drain.Idle?
    case Acquire(i) => i < |p.jobs| && p.jobs[i].Acquiring? && p.tokens < p.size
    case Register(i) => i < |p.jobs| && p.jobs[i].Acquired?
    case Return(i, _) => i < |p.jobs| && p.jobs[i].Running?
    case Send(i) => i < |p.jobs| && p.jobs[i].Sending? && |p.buffer| < ERROR_CAPACITY
    case Release(i) => i < |p.jobs| && p.jobs[i].Releasing? && p.tokens > 0
    case Done(i) => i < |p.jobs| && p.jobs[i].Leaving?
    case Receive => p.collector.Receiving? && |p.buffer| > 0
    case Append => p.collector.Holding?
    case SeeClosed => p.collector.Receiving? && |p.buffer| == 0 && p.errorsClosed
    case CollectorDone => p.collector.Exiting?
    case CallDrain => p.drain.Idle? && !AddInProgress(p)
    case JobsDone => p.drain.WaitingJobs? && p.pending == 0
    case CloseTokens => p.drain.ClosingTokens?
    case CloseErrors => p.drain.ClosingErrors?
    case DrainReturns => p.drain.WaitingCollector? && p.collector.Gone?
  }

  ghost function Taken(p: Pool, s: Step): Pool
    requires Enabled(p, s)
  {
    match s
    case CallAdd => p.(jobs := p.jobs + [Acquiring])
    case Acquire(i) => p.(jobs := p.jobs[i := Acquired], tokens := p.tokens + 1)
    case Register(i) => p.(jobs := p.jobs[i := Running], pending := p.pending + 1)
    case Return(i, result) =>
      p.(jobs := p.jobs[i := if result.Some? then Sending(result.value) else Releasing(None)])
    case Send(i) =>
      p.(jobs := p.jobs[i := Releasing(Some(p.jobs[i].error))], buffer := p.buffer + [p.jobs[i].error])
    case Release(i) => p.(jobs := p.jobs[i := Leaving(p.jobs[i].result)], tokens := p.tokens - 1)
    case Done(i) => p.(jobs := p.jobs[i := Finished(p.jobs[i].result)], pending := p.pending - 1)
    case Receive => p.(collector := Holding(p.buffer[0]), buffer := p.buffer[1..])
    case Append => p.(collector := Receiving, errs := p.errs + [p.collector.error])
    case SeeClosed => p.(collector := Exiting)
    case CollectorDone => p.(collector := Gone)
    case CallDrain => p.(drain := WaitingJobs)
    case JobsDone => p.(drain := ClosingTokens)
    case CloseTokens => p.(drain := ClosingErrors, tokensClosed := true)
    case CloseErrors => p.(drain := WaitingCollector, errorsClosed := true)
    case DrainReturns => p.(drain := Returned)
  }

  ghost predicate Moves(p: Pool, s: Step, q: Pool) { Enabled(p, s) && q == Taken(p, s) }

  ghost predicate Runs(p: Pool, steps: seq<Step>, q: Pool) {
    if steps == [] then p == q
    else
      var n := |steps| - 1;
      exists mid :: Moves(mid, steps[n], q) && Runs(p, steps[..n], mid)
  }

  // ---- Counting jobs ----

  function Sum(jobs: seq<Job>, weight: Job -> nat): nat {
    if jobs == [] then 0 else Sum(jobs[..|jobs| - 1], weight) + weight(jobs[|jobs| - 1])
  }

  lemma {:induction false} SumUpdate(jobs: seq<Job>, i: nat, job: Job, weight: Job -> nat)
    requires i < |jobs|
    ensures Sum(jobs[i := job], weight) + weight(jobs[i]) == Sum(jobs, weight) + weight(job)
  {
    var n := |jobs| - 1;
    if i == n {
      assert jobs[i := job][..n] == jobs[..n];
    } else {
      SumUpdate(jobs[..n], i, job, weight);
      assert jobs[i := job][..n] == jobs[..n][i := job];
    }
  }

  lemma {:induction false} SumAtLeast(jobs: seq<Job>, i: nat, weight: Job -> nat)
    requires i < |jobs|
    ensures Sum(jobs, weight) >= weight(jobs[i])
  {
    var n := |jobs| - 1;
    if i < n {
      SumAtLeast(jobs[..n], i, weight);
    }
  }

  lemma {:induction false} SumZero(jobs: seq<Job>, weight: Job -> nat)
    requires forall i :: 0 <= i < |jobs| ==> weight(jobs[i]) == 0
    ensures Sum(jobs, weight) == 0
  {
    if jobs != [] {
      SumZero(jobs[..|jobs| - 1], weight);
    }
  }

  lemma {:induction false} SumMonotone(jobs: seq<Job>, light: Job -> nat, heavy: Job -> nat)
    requires forall j :: light(j) <= heavy(j)
    ensures Sum(jobs, light) <= Sum(jobs, heavy)
  {
    if jobs != [] {
      SumMonotone(jobs[..|jobs| - 1], light, heavy);
    }
  }

  function HasToken(j: Job): nat { if j.Acquired? || j.Running? || j.Sending? || j.Releasing? then 1 else 0 }

  function IsPending(j: Job): nat { if j.Running? || j.Sending? || j.Releasing? || j.Leaving? then 1 else 0 }

  function IsRunning(j: Job): nat { if j.Running? then 1 else 0 }

  /** Jobs that have handed over a given error. */
  function FailedWith(error: string): Job -> nat {
    (j: Job) => if (j.Releasing? || j.Leaving? || j.Finished?) && j.result == Some(error) then 1 else 0
  }

  // ---- What every step keeps ----

  /** Tokens and the wait group count jobs exactly. */
  ghost predicate Counts(p: Pool) {
    p.tokens == Sum(p.jobs, HasToken) && p.tokens <= p.size && p.pending == Sum(p.jobs, IsPending)
  }

  /** How far the drain is says what is closed, and that no job can still need what is closed. */
  ghost predicate Closing(p: Pool) {
    && (p.tokensClosed <==> p.drain.ClosingErrors? || p.drain.WaitingCollector? || p.drain.Returned?)
    && (p.errorsClosed <==> p.drain.WaitingCollector? || p.drain.Returned?)
    && (!p.drain.Idle? ==> !AddInProgress(p))
    && (!p.drain.Idle? && !p.drain.WaitingJobs? ==> forall i :: 0 <= i < |p.jobs| ==> p.jobs[i].Finished?)
  }

  ghost predicate Collecting(p: Pool) {
    && |p.buffer| <= ERROR_CAPACITY
    && (p.collector.Exiting? || p.collector.Gone? ==> p.errorsClosed && p.buffer == [])
    && (p.drain.Returned? ==> p.collector.Gone?)
  }

  /** No error is lost and none is made up on the way from the jobs to the list. */
  ghost predicate Conserved(p: Pool, error: string) {
    Sum(p.jobs, FailedWith(error))
    == multiset(p.buffer)[error] + (if p.collector == Holding(error) then 1 else 0) + multiset(p.errs)[error]
  }

  ghost predicate Valid(p: Pool) {
    Counts(p) && Closing(p) && Collecting(p) && forall error :: Conserved(p, error)
  }

  /** What a step does to a count of jobs. */
  lemma {:induction false} SumTaken(p: Pool, s: Step, weight: Job -> nat)
    requires Enabled(p, s)
    ensures var q := Taken(p, s);
            match s
            case CallAdd => Sum(q.jobs, weight) == Sum(p.jobs, weight) + weight(Acquiring)
            case Acquire(i) => Sum(q.jobs, weight) + weight(p.jobs[i]) == Sum(p.jobs, weight) + weight(q.jobs[i])
            case Register(i) => Sum(q.jobs, weight) + weight(p.jobs[i]) == Sum(p.jobs, weight) + weight(q.jobs[i])
            case Return(i, _) => Sum(q.jobs, weight) + weight(p.jobs[i]) == Sum(p.jobs, weight) + weight(q.jobs[i])
            case Send(i) => Sum(q.jobs, weight) + weight(p.jobs[i]) == Sum(p.jobs, weight) + weight(q.jobs[i])
            case Release(i) => Sum(q.jobs, weight) + weight(p.jobs[i]) == Sum(p.jobs, weight) + weight(q.jobs[i])
            case Done(i) => Sum(q.jobs, weight) + weight(p.jobs[i]) == Sum(p.jobs, weight) + weight(q.jobs[i])
            case _ => q.jobs == p.jobs
  {
    var q := Taken(p, s);
    match s
    case CallAdd => assert q.jobs[..|p.jobs|] == p.jobs;
    case Acquire(i) => SumUpdate(p.jobs, i, q.jobs[i], weight);
    case Register(i) => SumUpdate(p.jobs, i, q.jobs[i], weight);
    case Return(i, _) => SumUpdate(p.jobs, i, q.jobs[i], weight);
    case Send(i) => SumUpdate(p.jobs, i, q.jobs[i], weight);
    case Release(i) => SumUpdate(p.jobs, i, q.jobs[i], weight);
    case Done(i) => SumUpdate(p.jobs, i, q.jobs[i], weight);
    case _ =>
  }

  lemma {:induction false} CountsKept(p: Pool, s: Step)
    requires Counts(p) && Enabled(p, s)
    ensures Counts(Taken(p, s))
  {
    SumTaken(p, s, HasToken);
    SumTaken(p, s, IsPending);
  }

  lemma {:induction false} ClosingKept(p: Pool, s: Step)
    requires Counts(p) && Closing(p) && Enabled(p, s)
    ensures Closing(Taken(p, s))
  {
    if s.JobsDone? {
      forall i | 0 <= i < |p.jobs| ensures p.jobs[i].Finished? {
        SumAtLeast(p.jobs, i, IsPending);
      }
    }
  }

  lemma {:induction false} SendConserves(p: Pool, i: nat, error: string)
    requires Conserved(p, error) && Enabled(p, Send(i))
    ensures Conserved(Taken(p, Send(i)), error)
  {
    var sent := p.jobs[i].error;
    SumTaken(p, Send(i), FailedWith(error));
    assert multiset(p.buffer + [sent])[error] == multiset(p.buffer)[error] + multiset([sent])[error];
  }

  lemma {:induction false} ReceiveConserves(p: Pool, error: string)
    requires Conserved(p, error) && Enabled(p, Receive)
    ensures Conserved(Taken(p, Receive), error)
  {
    assert p.buffer == [p.buffer[0]] + p.buffer[1..];
    assert multiset(p.buffer)[error] == multiset([p.buffer[0]])[error] + multiset(p.buffer[1..])[error];
  }

  lemma {:induction false} AppendConserves(p: Pool, error: string)
    requires Conserved(p, error) && Enabled(p, Append)
    ensures Conserved(Taken(p, Append), error)
  {
    var held := p.collector.error;
    assert multiset(p.errs + [held])[error] == multiset(p.errs)[error] + multiset([held])[error];
  }

  lemma {:induction false} ConservedKept(p: Pool, s: Step, error: string)
    requires Conserved(p, error) && Enabled(p, s)
    ensures Conserved(Taken(p, s), error)
  {
    hide Sum;
    match s
    case Send(i) => SendConserves(p, i, error);
    case Receive => ReceiveConserves(p, error);
    case Append => AppendConserves(p, error);
    case _ => SumTaken(p, s, FailedWith(error));
  }

  lemma {:induction false} StepKeepsValid(p: Pool, s: Step)
    requires Valid(p) && Enabled(p, s)
    ensures Valid(Taken(p, s))
  {
    CountsKept(p, s);
    ClosingKept(p, s);
    forall error ensures Conserved(Taken(p, s), error) {
      ConservedKept(p, s, error);
    }
  }

  lemma {:induction false} ReachableValid(size: nat, steps: seq<Step>, p: Pool)
    requires Runs(NewPool(size), steps, p)
    ensures Valid(p) && p.size == size
  {
    if steps != [] {
      var n := |steps| - 1;
      var mid :| Moves(mid, steps[n], p) && Runs(NewPool(size), steps[..n], mid);
      ReachableValid(size, steps[..n], mid);
      StepKeepsValid(mid, steps[n]);
    }
  }

  // ---- Safety ----

  /** At most as many jobs run as the pool is large; nothing is about to be sent on a closed channel; no channel
      is closed twice; and the wait group never goes below zero. */
  lemma {:induction false} ReachableSafe(size: nat, steps: seq<Step>, p: Pool)
    requires Runs(NewPool(size), steps, p)
    ensures Sum(p.jobs, IsRunning) <= size
    ensures forall i :: 0 <= i < |p.jobs| && p.jobs[i].Acquiring? ==> !p.tokensClosed
    ensures forall i :: 0 <= i < |p.jobs| && p.jobs[i].Sending? ==> !p.errorsClosed
    ensures p.drain.ClosingTokens? ==> !p.tokensClosed
    ensures p.drain.ClosingErrors? ==> !p.errorsClosed
    ensures p.pending >= 0 && forall i :: 0 <= i < |p.jobs| && p.jobs[i].Leaving? ==> p.pending > 0
  {
    ReachableValid(size, steps, p);
    SumMonotone(p.jobs, IsRunning, HasToken);
    forall i | 0 <= i < |p.jobs| && p.jobs[i].Leaving? ensures p.pending > 0 {
      SumAtLeast(p.jobs, i, IsPending);
    }
  }

  // ---- What a run returns, told by its steps alone ----

  /** How often a job failed with `error` in a run. */
  function Failures(steps: seq<Step>, error: string): nat {
    if steps == [] then 0
    else
      var last := steps[|steps| - 1];
      Failures(steps[..|steps| - 1], error) + (if last.Return? && last.result == Some(error) then 1 else 0)
  }

  /** How many jobs were added. */
  function Added(steps: seq<Step>): nat {
    if steps == [] then 0
    else Added(steps[..|steps| - 1]) + (if steps[|steps| - 1].CallAdd? then 1 else 0)
  }

  /** How often job `i` ran to its end. */
  function Returns(steps: seq<Step>, i: nat): nat {
    if steps == [] then 0
    else
      var last := steps[|steps| - 1];
      Returns(steps[..|steps| - 1], i) + (if last.Return? && last.i == i then 1 else 0)
  }

  function IsSending(error: string): Job -> nat { (j: Job) => if j == Sending(error) then 1 else 0 }

  /** The places in which an error can be on its way. */
  function OnTheWay(p: Pool, error: string): nat {
    Sum(p.jobs, IsSending(error)) + multiset(p.buffer)[error]
    + (if p.collector == Holding(error) then 1 else 0) + multiset(p.errs)[error]
  }

  /** A step moves an error at most from one place to the next; only a failing job adds one. */
  lemma {:induction false} OnTheWayStep(p: Pool, s: Step, error: string)
    requires Enabled(p, s)
    ensures var more := if s.Return? && s.result == Some(error) then 1 else 0;
            OnTheWay(Taken(p, s), error) == OnTheWay(p, error) + more
  {
    hide OnTheWay, Enabled, Taken;
    match s
    case Send(i) => SendOnTheWay(p, i, error);
    case Receive => ReceiveOnTheWay(p, error);
    case Append => AppendOnTheWay(p, error);
    case _ => OtherOnTheWay(p, s, error);
  }

  lemma {:induction false} OtherOnTheWay(p: Pool, s: Step, error: string)
    requires Enabled(p, s) && !s.Send? && !s.Receive? && !s.Append?
    ensures var more := if s.Return? && s.result == Some(error) then 1 else 0;
            OnTheWay(Taken(p, s), error) == OnTheWay(p, error) + more
  {
    hide Sum;
    SumTaken(p, s, IsSending(error));
  }

  lemma {:induction false} SendOnTheWay(p: Pool, i: nat, error: string)
    requires Enabled(p, Send(i))
    ensures OnTheWay(Taken(p, Send(i)), error) == OnTheWay(p, error)
  {
    var sent := p.jobs[i].error;
    SumTaken(p, Send(i), IsSending(error));
    assert multiset(p.buffer + [sent])[error] == multiset(p.buffer)[error] + multiset([sent])[error];
  }

  lemma {:induction false} ReceiveOnTheWay(p: Pool, error: string)
    requires Enabled(p, Receive)
    ensures OnTheWay(Taken(p, Receive), error) == OnTheWay(p, error)
  {
    assert p.buffer == [p.buffer[0]] + p.buffer[1..];
    assert multiset(p.buffer)[error] == multiset([p.buffer[0]])[error] + multiset(p.buffer[1..])[error];
  }

  lemma {:induction false} AppendOnTheWay(p: Pool, error: string)
    requires Enabled(p, Append)
    ensures OnTheWay(Taken(p, Append), error) == OnTheWay(p, error)
  {
    var held := p.collector.error;
    assert multiset(p.errs + [held])[error] == multiset(p.errs)[error] + multiset([held])[error];
  }

  /** At any time every failure of the run is in exactly one place: being sent, in the channel, with the
      collector, or in the list. */
  lemma {:induction false} EveryFailureIsSomewhere(size: nat, steps: seq<Step>, p: Pool, error: string)
    requires Runs(NewPool(size), steps, p)
    ensures Failures(steps, error)
         == Sum(p.jobs, IsSending(error)) + multiset(p.buffer)[error]
            + (if p.collector == Holding(error) then 1 else 0) + multiset(p.errs)[error]
  {
    if steps != [] {
      var n := |steps| - 1;
      var mid :| Moves(mid, steps[n], p) && Runs(NewPool(size), steps[..n], mid);
      EveryFailureIsSomewhere(size, steps[..n], mid, error);
      OnTheWayStep(mid, steps[n], error);
    }
  }

  predicate HasReturned(j: Job) { j.Sending? || j.Releasing? || j.Leaving? || j.Finished? }

  /** Each call of Add makes one job, and a job returns once or is still to return. */
  lemma {:induction false} EachJobReturnsOnce(size: nat, steps: seq<Step>, p: Pool, i: nat)
    requires Runs(NewPool(size), steps, p)
    ensures |p.jobs| == Added(steps)
    ensures Returns(steps, i) == if i < |p.jobs| && HasReturned(p.jobs[i]) then 1 else 0
  {
    if steps != [] {
      hide Enabled, Taken, HasReturned;
      var n := |steps| - 1;
      var mid :| Moves(mid, steps[n], p) && Runs(NewPool(size), steps[..n], mid);
      EachJobReturnsOnce(size, steps[..n], mid, i);
      ReturnStep(mid, steps[n], i);
    }
  }

  lemma {:induction false} ReturnStep(p: Pool, s: Step, i: nat)
    requires Enabled(p, s)
    ensures var q := Taken(p, s);
            && |q.jobs| == |p.jobs| + (if s.CallAdd? then 1 else 0)
            && ((i < |q.jobs| && HasReturned(q.jobs[i])) <==>
                  (i < |p.jobs| && HasReturned(p.jobs[i])) || (s.Return? && s.i == i))
            && (s.Return? && s.i == i ==> i < |p.jobs| && !HasReturned(p.jobs[i]))
  {
  }

  /** When the drain returns, every job that was added has run exactly once and finished, and the list holds
      each error exactly as often as a job failed with it. */
  lemma {:induction false} ReturnedIsComplete(size: nat, steps: seq<Step>, p: Pool)
    requires Runs(NewPool(size), steps, p) && p.drain.Returned?
    ensures |p.jobs| == Added(steps) && forall i :: 0 <= i < |p.jobs| ==> p.jobs[i].Finished? && Returns(steps, i) == 1
    ensures forall error :: multiset(p.errs)[error] == Failures(steps, error)
    ensures p.tokens == 0
  {
    ReachableValid(size, steps, p);
    SumZero(p.jobs, HasToken);
    EachJobReturnsOnce(size, steps, p, 0);
    forall i | 0 <= i < |p.jobs| ensures Returns(steps, i) == 1 { EachJobReturnsOnce(size, steps, p, i); }
    forall error ensures multiset(p.errs)[error] == Failures(steps, error) {
      EveryFailureIsSomewhere(size, steps, p, error);
      SumZero(p.jobs, IsSending(error));
    }
  }

  /** What job `i` returned, as an error. */
  function ErrorOf(steps: seq<Step>, i: nat): string {
    if steps == [] then ""
    else
      var last := steps[|steps| - 1];
      if last.Return? && last.i == i then (if last.result.Some? then last.result.value else "")
      else ErrorOf(steps[..|steps| - 1], i)
  }

  /** The errors of a run, in the order in which they were sent. */
  function Sent(steps: seq<Step>): seq<string> {
    if steps == [] then []
    else
      var last := steps[|steps| - 1];
      Sent(steps[..|steps| - 1]) + (if last.Send? then [ErrorOf(steps[..|steps| - 1], last.i)] else [])
  }

  function Held(c: Collector): seq<string> { if c.Holding? then [c.error] else [] }

  lemma {:induction false} LineStep(p: Pool, s: Step)
    requires Enabled(p, s)
    ensures var q := Taken(p, s);
            q.errs + Held(q.collector) + q.buffer
            == p.errs + Held(p.collector) + p.buffer + (if s.Send? then [p.jobs[s.i].error] else [])
  {
    var q := Taken(p, s);
    if s.Send? {
      assert p.errs + Held(p.collector) + (p.buffer + [p.jobs[s.i].error])
          == p.errs + Held(p.collector) + p.buffer + [p.jobs[s.i].error];
    } else if s.Receive? {
      assert p.errs + [] + p.buffer == p.errs + [p.buffer[0]] + p.buffer[1..];
    } else if s.Append? {
      assert p.errs + [p.collector.error] + p.buffer == p.errs + [p.collector.error] + [] + p.buffer;
    }
  }

  lemma {:induction false} SendingStep(p: Pool, s: Step, i: nat)
    requires Enabled(p, s) && i < |Taken(p, s).jobs| && Taken(p, s).jobs[i].Sending?
    ensures if s.Return? && s.i == i then s.result == Some(Taken(p, s).jobs[i].error)
            else i < |p.jobs| && p.jobs[i] == Taken(p, s).jobs[i]
  {
  }

  /** The collector takes the errors over in the order in which they were sent. */
  lemma {:induction false} InSendOrder(size: nat, steps: seq<Step>, p: Pool)
    requires Runs(NewPool(size), steps, p)
    ensures Sent(steps) == p.errs + Held(p.collector) + p.buffer
    ensures forall i :: 0 <= i < |p.jobs| && p.jobs[i].Sending? ==> p.jobs[i].error == ErrorOf(steps, i)
  {
    if steps == [] {
      assert Sent(steps) == [];
    } else {
      hide Enabled, Taken, Held;
      var n := |steps| - 1;
      var mid :| Moves(mid, steps[n], p) && Runs(NewPool(size), steps[..n], mid);
      InSendOrder(size, steps[..n], mid);
      LineStep(mid, steps[n]);
      if steps[n].Send? { SendIsReady(mid, steps[n]); }
      forall i | 0 <= i < |p.jobs| && p.jobs[i].Sending? ensures p.jobs[i].error == ErrorOf(steps, i) {
        SendingStep(mid, steps[n], i);
      }
      assert Sent(steps[..n]) + [] == Sent(steps[..n]);
    }
  }

  /** The list that the drain returns has the errors in the order in which they were sent. */
  lemma {:induction false} ReturnedInOrder(size: nat, steps: seq<Step>, p: Pool)
    requires Runs(NewPool(size), steps, p) && p.drain.Returned?
    ensures p.errs == Sent(steps)
  {
    hide Runs;
    ReachableValid(size, steps, p);
    InSendOrder(size, steps, p);
    assert p.errs + [] + [] == p.errs;
  }

  lemma {:induction false} SendIsReady(p: Pool, s: Step)
    requires Enabled(p, s) && s.Send?
    ensures s.i < |p.jobs| && p.jobs[s.i].Sending?
  {
  }

  // ---- Progress ----

  /** Some step other than a new call of Add can be taken. */
  ghost predicate CanMove(p: Pool) { exists s: Step :: !s.CallAdd? && Enabled(p, s) }

  lemma {:induction false} JobMoves(p: Pool, i: nat)
    requires Valid(p) && i < |p.jobs| && !p.jobs[i].Finished? && !p.jobs[i].Acquiring?
    ensures CanMove(p)
  {
    match p.jobs[i]
    case Acquired => assert Enabled(p, Register(i));
    case Running => assert Enabled(p, Return(i, None));
    case Releasing(_) =>
      SumAtLeast(p.jobs, i, HasToken);
      assert Enabled(p, Release(i));
    case Leaving(_) => assert Enabled(p, Done(i));
    case Sending(_) =>
      if |p.buffer| < ERROR_CAPACITY {
        assert Enabled(p, Send(i));
      } else if p.collector.Receiving? {
        assert Enabled(p, Receive);
      } else {
        assert Enabled(p, Append);
      }
  }

  lemma {:induction false} DrainMoves(p: Pool)
    requires Valid(p) && !p.drain.Returned? && forall i :: 0 <= i < |p.jobs| ==> p.jobs[i].Finished?
    ensures CanMove(p)
  {
    match p.drain
    case Idle => assert Enabled(p, CallDrain);
    case WaitingJobs =>
      SumZero(p.jobs, IsPending);
      assert Enabled(p, JobsDone);
    case ClosingTokens => assert Enabled(p, CloseTokens);
    case ClosingErrors => assert Enabled(p, CloseErrors);
    case WaitingCollector =>
      match p.collector {
        case Receiving => assert Enabled(p, if |p.buffer| > 0 then Receive else SeeClosed);
        case Holding(_) => assert Enabled(p, Append);
        case Exiting => assert Enabled(p, CollectorDone);
        case Gone => assert Enabled(p, DrainReturns);
      }
  }

  lemma {:induction false} AcquiringMoves(p: Pool, i: nat)
    requires Valid(p) && i < |p.jobs| && p.jobs[i].Acquiring? && p.size > 0
    requires forall j :: 0 <= j < |p.jobs| ==> p.jobs[j].Finished? || p.jobs[j].Acquiring?
    ensures CanMove(p)
  {
    SumZero(p.jobs, HasToken);
    assert Enabled(p, Acquire(i));
  }

  ghost predicate AllAcquiring(p: Pool) { forall i :: 0 <= i < |p.jobs| ==> p.jobs[i].Acquiring? }

  lemma {:induction false} TokenlessStep(p: Pool, s: Step)
    requires p.size == 0 && AllAcquiring(p) && Enabled(p, s)
    ensures AllAcquiring(Taken(p, s))
  {
  }

  lemma {:induction false} WithoutTokens(steps: seq<Step>, p: Pool)
    requires Runs(NewPool(0), steps, p)
    ensures AllAcquiring(p) && p.size == 0
  {
    if steps != [] {
      var n := |steps| - 1;
      var mid :| Moves(mid, steps[n], p) && Runs(NewPool(0), steps[..n], mid);
      WithoutTokens(steps[..n], mid);
      TokenlessStep(mid, steps[n]);
    }
  }

  lemma {:induction false} AllAcquiringIsStuck(p: Pool)
    requires Valid(p) && p.size == 0 && p.jobs != [] && AllAcquiring(p)
    ensures !CanMove(p)
  {
    assert p.jobs[0].Acquiring?;
    assert AddInProgress(p);
    forall error ensures multiset(p.buffer)[error] == 0 && p.collector != Holding(error) {
      SumZero(p.jobs, FailedWith(error));
      assert Conserved(p, error);
    }
    assert |p.buffer| > 0 ==> multiset(p.buffer)[p.buffer[0]] > 0;
    match p.collector
    case Holding(e) => assert false;
    case _ =>
  }

  /** A reachable pool is stuck exactly when the drain has returned, or when the pool was made without room for
      any job and one was added. */
  lemma {:induction false} StuckIff(size: nat, steps: seq<Step>, p: Pool)
    requires Runs(NewPool(size), steps, p)
    ensures !CanMove(p) <==> p.drain.Returned? || (size == 0 && p.jobs != [])
  {
    ReachableValid(size, steps, p);
    if p.drain.Returned? {
    } else if size == 0 {
      WithoutTokens(steps, p);
      if p.jobs == [] {
        DrainMoves(p);
      } else {
        AllAcquiringIsStuck(p);
      }
    } else if i :| 0 <= i < |p.jobs| && !p.jobs[i].Finished? && !p.jobs[i].Acquiring? {
      JobMoves(p, i);
    } else if i :| 0 <= i < |p.jobs| && p.jobs[i].Acquiring? {
      AcquiringMoves(p, i);
    } else {
      DrainMoves(p);
    }
  }

  function JobRank(j: Job): nat {
    match j
    case Acquiring => 9 case Acquired => 8 case Running => 7 case Sending(_) => 6
    case Releasing(_) => 2 case Leaving(_) => 1 case Finished(_) => 0
  }

  function CollectorRank(c: Collector): nat {
    match c case Receiving => 2 case Holding(_) => 4 case Exiting => 1 case Gone => 0
  }

  function DrainRank(d: Drain): nat {
    match d
    case Idle => 5 case WaitingJobs => 4 case ClosingTokens => 3 case ClosingErrors => 2
    case WaitingCollector => 1 case Returned => 0
  }

  function Rank(p: Pool): nat {
    Sum(p.jobs, JobRank) + 3 * |p.buffer| + CollectorRank(p.collector) + DrainRank(p.drain)
  }

  lemma {:induction false} RankFalls(p: Pool, s: Step)
    requires Enabled(p, s) && !s.CallAdd?
    ensures Rank(Taken(p, s)) < Rank(p)
  {
    SumTaken(p, s, JobRank);
  }

  /** Without new jobs no run goes on for ever: together with `StuckIff`, every run returns. */
  lemma {:induction false} RunsAreBounded(p: Pool, steps: seq<Step>, q: Pool)
    requires Runs(p, steps, q) && forall i :: 0 <= i < |steps| ==> !steps[i].CallAdd?
    ensures |steps| + Rank(q) <= Rank(p)
  {
    if steps != [] {
      var n := |steps| - 1;
      var mid :| Moves(mid, steps[n], q) && Runs(p, steps[..n], mid);
      RunsAreBounded(p, steps[..n], mid);
      RankFalls(mid, steps[n]);
    }
  }
}
